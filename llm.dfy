/** The language-model gateway as seen by the core: the requests it is sent and the three
    capabilities it offers (chat completion, structured extraction, embedding). What the
    gateway answers is opaque, so each capability is a function value handed in by the
    caller; every one of them may fail, and a failure is an `Err` the caller passes on. */
module Llm {
  import opened Common

  /** The chat models the client knows; `Gpt4oMini` is the client's default. */
  datatype Model = Gpt4oMini | Gpt4o | Gpt35Turbo {
    function Name(): string {
      match this
      case Gpt4oMini => "gpt-4o-mini"
      case Gpt4o => "gpt-4o"
      case Gpt35Turbo => "gpt-3.5-turbo"
    }
  }

  /** The embedding models; `TextEmbed3Small` is the client's default. */
  datatype EmbeddingModel = TextEmbed3Small | TextEmbed3Large {
    function Name(): string {
      match this
      case TextEmbed3Small => "text-embedding-3-small"
      case TextEmbed3Large => "text-embedding-3-large"
    }
  }

  datatype Message = Message(role: string, content: string)

  function SystemMessage(content: string): Message { Message("system", content) }
  function UserMessage(content: string): Message { Message("user", content) }

  /** A chat completion request; `temperature` is `None` when the caller leaves it out, in which
      case the client does not send one. */
  datatype ChatRequest = ChatRequest(messages: seq<Message>, model: Model, temperature: Option<real>)

  /** A structured-extraction request asking for a score with its explanation. */
  datatype ExtractRequest = ExtractRequest(messages: seq<Message>, model: Model)

  /** The gateway. `chat` answers with the reply text, `""` when the model's content is null;
      `extractExplained` answers with the `score` and `explanation` fields of the validated
      object; `embed` answers with the embedding vector. */
  datatype Gateway = Gateway(
    chat: ChatRequest -> Result<string>,
    extractExplained: ExtractRequest -> Result<(real, string)>,
    embed: (string, EmbeddingModel) -> Result<seq<real>>)
}
