# Résumé scoring core, modelled in Dafny

This project models the core of a service that scores a résumé against a job description.
The core has three parts.

- **Documents** (`app/documents/`). A résumé or a job description is loaded once. Its content
  comes from an uploaded file, else from a file path, else from a per-kind fallback. The file
  is read according to its lower-cased extension. Empty content is refused, and `content` can
  only be read after a successful load. A job description without a file asks the language
  model to write one from its title. A résumé without a file cannot be loaded.
- **PDF extraction** (`app/tools/pdf_extractor.py`). Links without a target are dropped. The
  kept links are sorted into reading order. Each page's text is rebuilt with a cursor that
  walks the text above each link and splices in `[text](uri)` markers. The flat link list is
  built page by page, links can be grouped by page, and a list of links can be rendered as
  Markdown.
- **Scoring** (`app/tools/resume_scorer.py`, `app/models/resume_score.py`). The scorer builds
  the prompt, reads a number out of the model's reply, and computes the ATS score from two
  embeddings. It then builds the consolidated score record with its default `id` and `name`.

The PDF library, the language-model client, the file system and the floating-point library
are not modelled. They are passed in as data and function values:

- `PdfExtractor.Page` gives a page's raw links, its textbox query, its full text and its width.
- `PdfExtractor.FileSystem` says whether a path exists and what opening it gives.
- `Llm.Gateway` provides chat, structured extraction and embedding.
- `ResumeScorer.FloatOps` provides `float()`, `str()` of a float, and the rounded cosine.
- `Documents.Env` holds the temporary directory, the upload's random token, the text-file
  reader, the PDF files and the gateway.

Each of these may fail, and a failure is an `Err` that the core passes on.

Modules:

- `Common`: `Option`, `Result` and the error kinds.
- `Text`: `str.strip`, ASCII lower-casing, slicing past the end, `join`, digits, and the
  `pathlib` suffix.
- `Llm`: the requests and the gateway.
- `ScoreModels`: the score records.
- `PdfExtractor`: the extractor. Its loops are methods proved against functions.
- `Documents`: the `Document` class with its `Load` method, and the source choice.
- `ResumeScorer`: the prompt, the parser and the scores.

## Model

| member | source | states |
|---|---|---|
| Text.Strip | app/tools/pdf_extractor.py:148 | `strip()` removes exactly the leading and trailing whitespace: the result is the middle slice of the input, begins and ends with a non-space, and is empty exactly when the input is all whitespace |
| Text.StripIdempotent | app/tools/pdf_extractor.py:148 | stripping a stripped text changes nothing |
| Text.AsciiLower | app/documents/base.py:45-47 | lower-casing keeps the length and lower-cases each character |
| Text.Drop | app/tools/pdf_extractor.py:100 | `s[k:]` is the slice from `k` while `k` is within `s`, and `""` past its end |
| Text.JoinAppend | app/tools/pdf_extractor.py:186 | joining two non-empty lists is joining each with one separator between |
| Text.LastIndexOf | app/documents/base.py:45 | the position found holds the character and none after it does, and nothing is found exactly when the character does not occur |
| Text.Join | app/documents/base.py:74 | joining no parts gives `""`, one part gives that part, and more parts are at least as long as the first part and one separator |
| Text.FileNameIsLastComponent | app/documents/base.py:45 | the name is the tail of the path after its last `/`, holds no `/`, and is the whole path when there is no `/` |
| Text.NameSuffix | app/documents/base.py:45 | a suffix is empty, or a dot followed by at least one character with no further dot. A non-empty suffix is the tail of the name from its last dot. The suffix is empty exactly when the name has no dot, or its last dot starts or ends the name |
| Text.Suffix | app/documents/base.py:45 | a path's suffix is empty, or a dot followed by at least one character |
| Text.SuffixIsTail | app/documents/base.py:45 | a path's suffix is a tail of the path |
| Text.FileNameAppend | app/documents/base.py:45 | the name of `p + q` is the name of `q` when `q` holds a `/`, else the name of `p` followed by `q` |
| Text.SuffixOfAppend | app/utils/temp_file_manager.py:41-42 | putting a prefix in front of a path whose name has a suffix keeps that suffix |
| ScoreModels.DefaultName | app/models/resume_score.py:23 | the default name has 14 characters: `Anonymous+` followed by the first four hex digits of the fresh UUID |
| ScoreModels.NewConsolidated | app/models/resume_score.py:19-25 | a record built with defaults keeps both scores, its id is the first fresh UUID's text and its name is `DefaultName` of the second |
| ScoreModels.WithIdentity | app/models/resume_score.py:22-23 | overwriting `id` and `name` after construction leaves both scores untouched |
| ScoreModels.FieldValue | app/models/resume_score.py:24-29 | a score field is found by its alias or by its field name; the alias's value is taken when it is given, and otherwise the field name's |
| ScoreModels.ConsolidatedFromFields | app/models/resume_score.py:19-29 | validation succeeds exactly when both score fields are given, and then builds the default record from them |
| ScoreModels.PopulateByNameOrAlias | app/models/resume_score.py:24-29 | populating by field names, by aliases, or by a mix gives the same record |
| PdfExtractor.CreatePdfLink | app/tools/pdf_extractor.py:132-152 | a link is kept exactly when its uri is present and non-empty. A kept link has that uri and the page number. Its text is the stripped textbox text of its rectangle. Without a rectangle the text is empty and the rectangle is zero. A missing type becomes `unknown` |
| PdfExtractor.KeptLinks | app/tools/pdf_extractor.py:124-130 | the kept links' targets are exactly the non-empty raw targets, in listing order, and every kept link is on the given page with a non-empty uri |
| PdfExtractor.KeptLinksSnoc | app/tools/pdf_extractor.py:127-129 | one more raw link adds its structured link at the end when it is kept, and nothing otherwise |
| PdfExtractor.PageLinks | app/tools/pdf_extractor.py:124-130 | a page's links are its non-empty raw targets in listing order, each on the given page number |
| PdfExtractor.ExtractPageLinks | app/tools/pdf_extractor.py:124-130 | the loop returns the page's kept links in listing order |
| PdfExtractor.InsertByPosition | app/tools/pdf_extractor.py:86-89 | inserting a link adds exactly that link to the multiset |
| PdfExtractor.InsertKeepsSorted | app/tools/pdf_extractor.py:86-89 | inserting into a list in `(y0, x0)` order keeps that order |
| PdfExtractor.InsertWithKey | app/tools/pdf_extractor.py:86-89 | inserting places the link before the other links with its key and leaves the links of every other key unchanged |
| PdfExtractor.SortByPosition | app/tools/pdf_extractor.py:86-89 | the sort puts the links in ascending `(y0, x0)` order and is a permutation of its input |
| PdfExtractor.SortWithKey | app/tools/pdf_extractor.py:86-89 | the links with a given key keep their relative order after the sort |
| PdfExtractor.SortIsStable | app/tools/pdf_extractor.py:86-89 | the sort is stable for every key |
| PdfExtractor.Pieces | app/tools/pdf_extractor.py:95-111 | the walk's piece count is bounded by the links: at least one piece per link and at most twice the number of links plus one; the one-marker-per-link fact is `OneMarkerPerLink`'s |
| PdfExtractor.ShowsAppend | app/tools/pdf_extractor.py:113 | rendering two runs of pieces is rendering each in turn |
| PdfExtractor.PagesText | app/tools/pdf_extractor.py:81-115 | there is one text per page |
| PdfExtractor.FormatPageText | app/tools/pdf_extractor.py:92-113 | the cursor loop writes exactly the rendered pieces: for each link in order, the text above it from the cursor on (when that text is non-empty), then its marker, moving the cursor to the length of that text; then the rest of the page text, when non-empty |
| PdfExtractor.PiecesStep | app/tools/pdf_extractor.py:95-106 | one link contributes its text-before, then one marker, and moves the cursor to the length of its text above |
| PdfExtractor.WalkStep | app/tools/pdf_extractor.py:95-106 | the loop invariant of the walk survives one link |
| PdfExtractor.WalkEnd | app/tools/pdf_extractor.py:108-111 | after the last link only the rest of the page text from the cursor remains |
| PdfExtractor.PiecesEnd | app/tools/pdf_extractor.py:108-111 | with no links left, the pieces are the page text from the cursor on when that is non-empty, and nothing otherwise |
| PdfExtractor.PagesTextSnoc | app/tools/pdf_extractor.py:84-113 | one more page appends its text at the end, numbered from 1 |
| PdfExtractor.ExtractPageText | app/tools/pdf_extractor.py:84-113 | one page's text is its kept links sorted into reading order, walked by the cursor loop |
| PdfExtractor.ExtractAllPagesText | app/tools/pdf_extractor.py:81-115 | the loop gives one reconstructed text per page, in page order, pages numbered from 1 |
| PdfExtractor.LinkTargets | app/tools/pdf_extractor.py:103 | one display text and target pair per link |
| PdfExtractor.TextWithoutMarkersAppend | app/tools/pdf_extractor.py:113 | taking markers out commutes with putting pieces together |
| PdfExtractor.MarkersOfAppend | app/tools/pdf_extractor.py:103 | the markers of two runs of pieces are the markers of each in turn |
| PdfExtractor.OneMarkerPerLink | app/tools/pdf_extractor.py:95-106 | every link gets exactly one `[text](uri)` marker, in the order the links are walked |
| PdfExtractor.ChainTail | app/tools/pdf_extractor.py:95-106 | the condition of the no-loss property carries over from the first link to the remaining ones |
| PdfExtractor.ReconstructionKeepsText | app/tools/pdf_extractor.py:95-113 | suppose every text above a link is a prefix of the page text, and their lengths never decrease along the walk. Then taking the markers out leaves the page text from the cursor on: nothing is lost or repeated |
| PdfExtractor.FirstLinkKeepsText | app/tools/pdf_extractor.py:97-106 | the text written before the first link is the page text from the cursor up to the end of the text above that link |
| PdfExtractor.PageReconstruction | app/tools/pdf_extractor.py:84-113 | under that condition, a page's text without its markers is its full text, and its markers are its links' in reading order |
| PdfExtractor.PageWithoutLinks | app/tools/pdf_extractor.py:93-113 | a page without kept links comes out as its full text, unchanged |
| PdfExtractor.AllLinksPageRange | app/tools/pdf_extractor.py:120 | every link of the first `k` pages carries a page number from 1 to `k` |
| PdfExtractor.InPageOrderAppend | app/tools/pdf_extractor.py:120-121 | appending a later page's links keeps the page numbers non-decreasing |
| PdfExtractor.AllLinksInPageOrder | app/tools/pdf_extractor.py:117-122 | page numbers never decrease along the flat link list |
| PdfExtractor.ExtractAllPagesLinks | app/tools/pdf_extractor.py:117-122 | the loop concatenates each page's kept links, unsorted, with 1-based page numbers |
| PdfExtractor.OnPage | app/tools/pdf_extractor.py:179-180 | one page's group is never longer than the list it is taken from |
| PdfExtractor.OnPageSelects | app/tools/pdf_extractor.py:179-180 | one page's group holds exactly the links of that page, all taken from the list |
| PdfExtractor.OnPageAppend | app/tools/pdf_extractor.py:179-180 | selecting one page's links commutes with concatenation |
| PdfExtractor.OnPageOfOnePage | app/tools/pdf_extractor.py:179-180 | a list whose links are all on one page has all of them there and none elsewhere |
| PdfExtractor.OnPageOfOtherPages | app/tools/pdf_extractor.py:179-180 | a list without links on a page has none there |
| PdfExtractor.AllLinksStep | app/tools/pdf_extractor.py:120-121 | adding page `k` adds its links to page `k` only |
| PdfExtractor.AllLinksOnPage | app/tools/pdf_extractor.py:117-122 | the flat list's links on page `p` are exactly page `p`'s kept links in listing order, and there are none for any other number |
| PdfExtractor.AllLinksOnListedPage | app/tools/pdf_extractor.py:120-121 | later pages add nothing to an earlier page's links |
| PdfExtractor.AllLinksEarlierPage | app/tools/pdf_extractor.py:120-121 | page `k` adds nothing to another page's links |
| PdfExtractor.AllLinksBeyond | app/tools/pdf_extractor.py:120 | the first `k` pages have no links on a page outside 1 to `k` |
| PdfExtractor.AllLinksOnLastPage | app/tools/pdf_extractor.py:120-121 | the flat list's links on its last page are that page's kept links |
| PdfExtractor.PagesInOrder | app/tools/pdf_extractor.py:176-181 | the dictionary's keys are the page numbers that occur, each once |
| PdfExtractor.PagesInOrderIncreasing | app/tools/pdf_extractor.py:176-181 | grouping a list in page order, such as the flat link list, gives its pages in increasing order |
| PdfExtractor.GroupLinksByPage | app/tools/pdf_extractor.py:175-181 | the groups have one key per page that occurs, in order of first appearance, and each holds that page's links in their original order |
| PdfExtractor.MarkdownLines | app/tools/pdf_extractor.py:186 | one Markdown line per link |
| PdfExtractor.FormatLinksAsMarkdown | app/tools/pdf_extractor.py:183-186 | the listing is empty exactly when there are no links, and a single link gives the single line `- [text](uri)` |
| PdfExtractor.FormatLinksAppend | app/tools/pdf_extractor.py:183-186 | the listing of two lists is the listing of each, one newline between |
| PdfExtractor.AuthenticationPassword | app/tools/pdf_extractor.py:69-70 | `authenticate` is called exactly when the document needs a password and a non-empty one was given, and it is called with that password |
| PdfExtractor.OpenSecuredDocument | app/tools/pdf_extractor.py:66-71 | a missing path gives `FileNotFoundError("PDF file not found: <path>")` before the file is parsed. A parse failure is passed on. An opened file is read after authentication with the chosen password, and a read that fails, as for a document still locked, is passed on |
| PdfExtractor.ContentOf | app/tools/pdf_extractor.py:45-79 | extraction succeeds exactly when opening does, and passes its error on. It gives one reconstructed text per page, numbered from 1, the flat link list and the document's metadata |
| PdfExtractor.ExtractContent | app/tools/pdf_extractor.py:45-79 | the method returns the page texts, the flat links and the metadata of the opened document |
| Documents.DirPrefix | app/utils/temp_file_manager.py:42 | an empty directory adds nothing. A non-empty one is kept, with a `/` added unless it already ends with one |
| Documents.JoinPathShape | app/utils/temp_file_manager.py:42 | the joined path starts with the directory and ends with the name, with a `/` between them when there is a directory |
| Documents.UploadType | app/utils/temp_file_manager.py:35 | the upload's type is as long as its suffix and is empty or a dot followed by at least one character |
| Documents.TempPrefixShape | app/utils/temp_file_manager.py:41-42 | the temporary prefix starts with the temporary directory and ends with `_` |
| Documents.TempPathOf | app/utils/temp_file_manager.py:42 | the temporary copy's path is the upload's name behind the temporary prefix |
| Documents.MaterializeUpload | app/utils/temp_file_manager.py:14-50 | an upload is accepted exactly when its lower-cased extension is allowed and it is at most 1 MiB. The extension is checked first. The size refusal reads `File size exceeds maximum limit of 1.0MB`. An accepted upload's copy is `upload_<token>_<name>` in the temporary directory |
| Documents.PdfText | app/documents/base.py:70-74 | a PDF's content is available exactly when extraction succeeds, and is the extracted page texts joined by newlines. An extraction error is passed on |
| Documents.FileContent | app/documents/base.py:56-68 | `.pdf` gives the page texts joined by newlines, `.txt`, `.md` and `.rtf` give the file's text, and any other type gives `Unsupported file type` |
| Documents.GeneratorRequest | app/documents/job_description.py:13-19 | the request is exactly the generator instruction and then `Job Title: <title>`, to the client's default model |
| Documents.LoadAlternative | app/documents/job_description.py:8-21 | a résumé's fallback always fails with `Resume requires a file`. A job description without a title fails before any request. Otherwise its content is the model's reply |
| Documents.FetchContent | app/documents/base.py:41-49 | the upload is used when there is one, and its temporary path becomes the file path. Else the file path is used, else the fallback |
| Documents.LoadVerdict | app/documents/base.py:51-54 | loading succeeds exactly when non-empty content was read, errors pass through, and empty content gives `Failed to load <Class> content` |
| Documents.Document.constructor | app/documents/base.py:11-15 | a new document is unloaded and holds no content |
| Documents.Document.Content | app/documents/base.py:17-27 | `content` can be read exactly when the document is loaded and its content is present. Otherwise it gives the must-be-loaded or the content-is-None error |
| Documents.Document.SetContent | app/documents/base.py:29-31 | the setter writes the content and leaves the load flag and the paths alone |
| Documents.Document.IsLoaded | app/documents/base.py:33-35 | `is_loaded` is the load flag |
| Documents.Document.LoadFileContent | app/documents/base.py:56-74 | reading the file at the current path dispatches on its type |
| Documents.Document.Load | app/documents/base.py:37-54 | once loaded, nothing changes. Otherwise the chosen source is read and the file path updated, content read successfully is stored, and the document becomes loaded exactly when that content is non-empty |
| Documents.UploadTypeSurvivesTempPath | app/documents/base.py:43-45 | the temporary copy has the upload's own extension, so the dispatch sees the type the allow-list accepted |
| Documents.WordTypes | app/utils/temp_file_manager.py:14 | `.doc` and `.docx` are allowed uploads but not readable types |
| Documents.WordUploadsRejected | app/documents/base.py:56-63 | `.doc` and `.docx` uploads pass the allow-list and are then refused with `Unsupported file type` |
| Documents.OneSourceUsed | app/documents/base.py:41-49 | with an upload the file path does not matter, and with a file path the kind's fallback is not consulted |
| Documents.ResumeWithoutFileFails | app/documents/resume.py:8-9 | a résumé with neither upload nor path fails with `Resume requires a file` |
| Documents.LoadedResumeCameFromSupportedFile | app/documents/base.py:41-63 | a résumé that loads had an upload or a path, and its content came from a `.pdf`, `.txt`, `.md` or `.rtf` file |
| Documents.JobDescriptionNeedsTitle | app/documents/job_description.py:9-10 | a job description without a title fails with the title-required error, whatever the model would answer |
| Documents.JobDescriptionReplyIsContent | app/documents/job_description.py:20-21 | a titled job description's content is exactly the reply, and it loads exactly when the reply is non-empty |
| Documents.ResumeWithoutFile | app/documents/base.py:48-54 | an unloaded résumé without a file fails to load, refuses to give its content, and fails again on a second attempt |
| Documents.LoadIsIdempotent | app/documents/base.py:38-39 | a job description loaded from its title keeps the first reply when it is loaded again, whatever the second environment's model would answer |
| ResumeScorer.BuildScoringPrompt | app/tools/resume_scorer.py:157-192 | the prompt is as long as the base sentence, the skill clause and, when asked, the explanation request together |
| ResumeScorer.PromptParts | app/tools/resume_scorer.py:175-192 | the prompt is the base sentence, then the skill clause, then the explanation request when asked |
| ResumeScorer.PromptOpensWithDescription | app/tools/resume_scorer.py:175-176 | the prompt opens with `Job Description:` and a newline, followed by the description |
| ResumeScorer.PromptAsksForExplanationIff | app/tools/resume_scorer.py:187-192 | the prompt ends with the explanation request exactly when an explanation is asked for |
| ResumeScorer.ExplainOnlyAppends | app/tools/resume_scorer.py:187-192 | asking for an explanation only appends the request |
| ResumeScorer.EmptySkillIsNoSkill | app/tools/resume_scorer.py:182-185 | an empty skill gives the same prompt as no skill |
| ResumeScorer.FirstDigit | app/tools/resume_scorer.py:226 | the position found is the first digit, and none is found exactly when there is no digit |
| ResumeScorer.DigitRunEnd | app/tools/resume_scorer.py:226 | the run of digits from a position ends at the first non-digit |
| ResumeScorer.SearchNumber | app/tools/resume_scorer.py:226-227 | the search finds nothing exactly when the text has no digit, and a match is non-empty |
| ResumeScorer.SearchNumberIsLeftmostLongest | app/tools/resume_scorer.py:226 | the match is a `\d+(\.\d+)?` match, no match starts earlier, and none from the same start is longer |
| ResumeScorer.DecimalIsPattern | app/tools/resume_scorer.py:226 | a decimal is what `\d+(?:\.\d+)?` matches as a whole: a run of digits, or two runs of digits around one dot |
| ResumeScorer.DigitsAroundDot | app/tools/resume_scorer.py:226 | two runs of digits around a dot form a decimal |
| ResumeScorer.DecimalValue | app/tools/resume_scorer.py:228 | a matched number's value is not negative |
| ResumeScorer.DigitsValueAppend | app/tools/resume_scorer.py:228 | digits written after other digits shift the first run by one power of ten per digit of the second |
| ResumeScorer.DecimalValueExact | app/tools/resume_scorer.py:228 | a match with a dot is the integer all its digits spell, divided by ten once per digit after the dot |
| ResumeScorer.DecimalValueSplit | app/tools/resume_scorer.py:228 | a match with a dot is the integer part plus the fraction part over ten to its length |
| ResumeScorer.JoinedDigitsValue | app/tools/resume_scorer.py:228 | reading digits `a` and `b` as `a.b` is reading `ab` over ten to the length of `b` |
| ResumeScorer.OnlyDot | app/tools/resume_scorer.py:226 | the dot of a decimal is its only dot, with digits on either side |
| ResumeScorer.DigitsOnlyIsWhole | app/tools/resume_scorer.py:228 | a match without a dot is the integer its digits spell |
| ResumeScorer.ParseScoreFromResponse | app/tools/resume_scorer.py:194-233 | with `explain` the reply goes to structured extraction, whose failure is passed on. Otherwise a reply that parses as a float is that `Score`, and the regex is not consulted. Else the first match is the `Score`. A reply with no digit gives the could-not-parse error ending in the reply. The variant follows `explain` |
| ResumeScorer.FirstDigitAfter | app/tools/resume_scorer.py:226 | text without digits in front moves the first digit by its length |
| ResumeScorer.DigitRunEndAfter | app/tools/resume_scorer.py:226 | text in front moves the end of a digit run by its length |
| ResumeScorer.ExampleFirstDigit | app/tools/resume_scorer.py:226 | the first digit of `Score: 72.5 out of 100` is at position 7 |
| ResumeScorer.ExampleDigitRuns | app/tools/resume_scorer.py:226 | its digit runs are `72` and `5` |
| ResumeScorer.SearchExampleReply | app/tools/resume_scorer.py:226 | the search finds `72.5` in it |
| ResumeScorer.ExampleMatchText | app/tools/resume_scorer.py:227-228 | the matched text is `72.5` |
| ResumeScorer.ExampleValue | app/tools/resume_scorer.py:228 | `float("72.5")` is 72.5 |
| ResumeScorer.ParseScoreWithText | app/tools/resume_scorer.py:224-229 | `Score: 72.5 out of 100` gives the score 72.5 |
| ResumeScorer.ParseScoreWithoutDigits | app/tools/resume_scorer.py:230-233 | a reply with no digit that is not a float fails, and the message ends with the reply |
| ResumeScorer.AiRequest | app/tools/resume_scorer.py:131-139 | the request is exactly the system prompt and then the scoring prompt, at the scorer's model and temperature |
| ResumeScorer.GenerateAiScore | app/tools/resume_scorer.py:120-147 | a failure of the model or of parsing is passed on unchanged, and a score is explained exactly when `explain` is set |
| ResumeScorer.GenerateAtsScore | app/tools/resume_scorer.py:86-118 | embeds the résumé and the description with the default embedding model and scores their cosine. An embedding failure is passed on, the résumé's first. The score is explained as `ATS score is <value>` exactly when `explain` is set |
| ResumeScorer.Consolidate | app/tools/resume_scorer.py:77-84 | the record keeps both scores, except that with `explain` a plain ATS score cannot be re-wrapped |
| ResumeScorer.ScoreContents | app/tools/resume_scorer.py:46-84 | the résumé's content error comes first, then the description's, then the AI score's error, then the ATS score's, each passed on unchanged. The record exists exactly when both scores do, holds them, and their variants follow `explain` |
| ResumeScorer.ScoreResume | app/tools/resume_scorer.py:149-155 | scoring an unloaded résumé or description fails with its must-be-loaded error before any request |
| ResumeScorer.ConsolidationNeverRewraps | app/tools/resume_scorer.py:77-118 | the ATS score always arrives as the right variant, so consolidation never re-wraps it and never fails |

## Left out

- Cosine similarity and rounding (app/tools/resume_scorer.py:103-110) are numpy floating-point arithmetic. They are the opaque `FloatOps.cosinePercent`, and the missing zero-norm guard is not modelled.
- Python's `float()` grammar for the whole reply (whitespace, signs, exponents, `inf`, `nan`, underscores) is the opaque `FloatOps.parse`. Only the regex fallback is modelled exactly.
- `str()` of a float in `ATS score is <value>` is the opaque `FloatOps.repr`.
- ResumeScorer.DecimalValue: gives the exact decimal value of the match, not its nearest binary float.
- ResumeScorer.SearchNumber: `\d` is taken as the ASCII digits, while Python's `re` also matches other Unicode decimal digits.
- Text.AsciiLower: lower-cases ASCII letters only, while Python's `str.lower()` covers all of Unicode.
- The `normalize` branch of `generate_ai_score` (app/tools/resume_scorer.py:141-142) is off by default, and it would fail by multiplying a score record.
- The module-level `score_resume` shim (app/tools/resume_scorer.py:237-252) passes strings where documents are expected. It is not modelled.
- Structured extraction (app/tools/resume_scorer.py:209-219) and the client in app/intelligence/client.py are thin wrappers over the OpenAI SDKs. They are the opaque `Gateway` with its error results.
- pymupdf itself is not modelled: opening, authentication, `get_links`, `get_textbox`, `get_text` and metadata. Its answers are data in `Page`, `PdfFile` and `FileSystem`.
- Closing the document and the debug output of `extract_content` (app/tools/pdf_extractor.py:49-62, 160-173) concern resources and logging only. The debug filter on `link_type == "uri"` is not modelled either.
- PdfExtractor.CreatePdfLink: a present rectangle is always taken as truthy. pymupdf's own truth value of an empty rectangle is not modelled.
- PdfExtractor.CreatePdfLink: a `"type"` entry present with the value `None` is not modelled. The source passes that `None` on, and the link model then refuses it; here a `None` type means the key is absent and gives `unknown`.
- Concurrency is not modelled. `asyncio.gather` in `score_resume` and `generate_ats_score` runs sequentially here. When both scores fail, the AI score's error is the one reported.
- The temporary file manager writes the upload to disk and deletes it afterwards. Neither step is modelled, nor are the upload's bytes. An upload is its name and its size.
- Documents.Document.Load: a retry after a failed load of an upload sees the whole upload again. In the source, the first load has already read the upload's stream, so a retry reads empty bytes. The size check then passes and an empty file is written.
- Documents.MaterializeUpload: the allow-list refusal is `UploadRejected(<extension>)`, not the source's message text. That text lists a set in its iteration order.
- Path handling is plain string work: `os.path.join` for a relative name and the `pathlib` name and suffix. There is no normalisation.
- The validation error texts of pydantic are not modelled, only which field is missing.
- `__repr__` of documents (app/documents/base.py:81-84) and all logging and `print` are not modelled.
- The `skill` parameter of `generate_ats_score` is unused in the source and is left out.
- The rest of the repository is not part of this model:
  - app/agents/resume_processor.py (fan-out only);
  - the legacy scorer app/resume_scorer/resume_scorer.py;
  - appv1.py;
  - app/utils/hash_utils.py and app/utils/setup_logging.py;
  - the pydantic schema app/models/resume.py;
  - the CLI, the routers, main.py and the tests.
