/** The string operations of Python that the core relies on, written out on `seq<char>`:
    `str.strip()`, ASCII `str.lower()`, slicing past the end, `sep.join(...)`, ASCII digits
    and the `suffix` of a `pathlib` path. */
module Text {
  import opened Common

  // ---------------------------------------------------------------------------------------
  // Whitespace and str.strip()

  /** The characters for which Python's `str.isspace()` holds. */
  predicate IsSpace(c: char) {
    || c == ' '
    || ('\t' <= c <= '\r')
    || ('\U{1c}' <= c <= '\U{1f}')
    || c == '\U{85}' || c == '\U{a0}' || c == '\U{1680}'
    || ('\U{2000}' <= c <= '\U{200a}')
    || c == '\U{2028}' || c == '\U{2029}' || c == '\U{202f}' || c == '\U{205f}' || c == '\U{3000}'
  }

  /** The number of whitespace characters `s` starts with. */
  function LeadingSpace(s: string): (n: nat)
    ensures n <= |s|
    ensures forall k :: 0 <= k < n ==> IsSpace(s[k])
    ensures n < |s| ==> !IsSpace(s[n])
  {
    if |s| > 0 && IsSpace(s[0]) then 1 + LeadingSpace(s[1..]) else 0
  }

  /** The number of whitespace characters `s` ends with. */
  function TrailingSpace(s: string): (n: nat)
    ensures n <= |s|
    ensures forall k :: |s| - n <= k < |s| ==> IsSpace(s[k])
    ensures n < |s| ==> !IsSpace(s[|s| - n - 1])
  {
    if |s| > 0 && IsSpace(s[|s| - 1]) then 1 + TrailingSpace(s[..|s| - 1]) else 0
  }

  /** `s.strip()`: `s` without its leading and trailing whitespace. */
  function Strip(s: string): (r: string)
    ensures r == "" || (!IsSpace(r[0]) && !IsSpace(r[|r| - 1]))
    ensures LeadingSpace(s) + |r| <= |s|
    ensures r == s[LeadingSpace(s)..LeadingSpace(s) + |r|]
    ensures forall k :: LeadingSpace(s) + |r| <= k < |s| ==> IsSpace(s[k])
    ensures r == "" <==> forall k :: 0 <= k < |s| ==> IsSpace(s[k])
  {
    var lead := LeadingSpace(s);
    if lead == |s| then ""
    else
      var trail := TrailingSpace(s);
      // The first non-space character is not among the trailing spaces.
      assert !IsSpace(s[lead]);
      s[lead..|s| - trail]
  }

  /** Stripping twice is stripping once. */
  lemma StripIdempotent(s: string)
    ensures Strip(Strip(s)) == Strip(s)
  {
    var r := Strip(s);
    if r != "" {
      assert LeadingSpace(r) == 0;
      assert TrailingSpace(r) == 0;
    }
  }

  // ---------------------------------------------------------------------------------------
  // Case and slicing

  function LowerChar(c: char): char {
    if 'A' <= c <= 'Z' then (c as int + 32) as char else c
  }

  /** `s.lower()` on the ASCII letters. */
  function AsciiLower(s: string): (r: string)
    ensures |r| == |s|
    ensures forall k :: 0 <= k < |s| ==> r[k] == LowerChar(s[k])
  {
    seq(|s|, k requires 0 <= k < |s| => LowerChar(s[k]))
  }

  /** Python's `s[k:]` for `k >= 0`: empty once `k` passes the end. */
  function Drop(s: string, k: nat): (r: string)
    ensures k <= |s| ==> r == s[k..]
    ensures k >= |s| ==> r == ""
  {
    if k <= |s| then s[k..] else ""
  }

  /** `"".join(parts)`. */
  function Concat(parts: seq<string>): string
    decreases |parts|
  {
    if parts == [] then "" else parts[0] + Concat(parts[1..])
  }

  /** `sep.join(parts)`. */
  function Join(sep: string, parts: seq<string>): (r: string)
    ensures parts == [] ==> r == ""
    ensures |parts| == 1 ==> r == parts[0]
    ensures |parts| > 1 ==> |r| >= |parts[0]| + |sep|
    decreases |parts|
  {
    if |parts| == 0 then ""
    else if |parts| == 1 then parts[0]
    else parts[0] + sep + Join(sep, parts[1..])
  }

  /** Joining two non-empty lists is joining each and putting one separator between. */
  lemma {:induction false} JoinAppend(sep: string, a: seq<string>, b: seq<string>)
    requires |a| > 0 && |b| > 0
    ensures Join(sep, a + b) == Join(sep, a) + sep + Join(sep, b)
    decreases |a|
  {
    if |a| == 1 {
      assert (a + b)[1..] == b;
    } else {
      assert (a + b)[1..] == a[1..] + b;
      JoinAppend(sep, a[1..], b);
    }
  }

  // ---------------------------------------------------------------------------------------
  // Digits

  predicate IsDigit(c: char) {
    '0' <= c <= '9'
  }

  predicate AllDigits(t: string) {
    forall k :: 0 <= k < |t| ==> IsDigit(t[k])
  }

  function DigitValue(c: char): nat
    requires IsDigit(c)
  {
    c as int - '0' as int
  }

  /** The value of a run of decimal digits, most significant first. */
  function DigitsValue(t: string): nat
    requires AllDigits(t)
    decreases |t|
  {
    if t == [] then 0 else 10 * DigitsValue(t[..|t| - 1]) + DigitValue(t[|t| - 1])
  }

  function Pow10(n: nat): (r: nat)
    ensures r > 0
  {
    if n == 0 then 1 else 10 * Pow10(n - 1)
  }

  // ---------------------------------------------------------------------------------------
  // pathlib: name and suffix

  /** `s.rfind(c)`, as an option. */
  function LastIndexOf(s: string, c: char): (r: Option<nat>)
    ensures r.Some? ==> r.value < |s| && s[r.value] == c
    ensures r.Some? ==> forall k :: r.value < k < |s| ==> s[k] != c
    ensures r.None? ==> forall k :: 0 <= k < |s| ==> s[k] != c
    decreases |s|
  {
    if |s| == 0 then None
    else if s[|s| - 1] == c then Some(|s| - 1)
    else LastIndexOf(s[..|s| - 1], c)
  }

  /** Where the last `c` of `a + b` is, given where the last `c` of `b` is. */
  lemma {:induction false} LastIndexOfAppend(a: string, b: string, c: char)
    ensures LastIndexOf(b, c).Some? ==> LastIndexOf(a + b, c) == Some(|a| + LastIndexOf(b, c).value)
    ensures LastIndexOf(b, c).None? ==> LastIndexOf(a + b, c) == LastIndexOf(a, c)
    decreases |b|
  {
    if b == [] {
      assert a + b == a;
    } else {
      var ab := a + b;
      assert ab[|ab| - 1] == b[|b| - 1];
      if b[|b| - 1] != c {
        assert ab[..|ab| - 1] == a + b[..|b| - 1];
        LastIndexOfAppend(a, b[..|b| - 1], c);
      }
    }
  }

  /** `PurePath(p).name`: what follows the last `/`. */
  function FileName(p: string): string {
    match LastIndexOf(p, '/')
    case Some(i) => p[i + 1..]
    case None => p
  }

  /** The name is the tail of the path after its last `/`, and holds no `/` itself. */
  lemma {:induction false} FileNameIsLastComponent(p: string)
    ensures var r := FileName(p);
            && |r| <= |p| && p[|p| - |r|..] == r
            && (forall k :: 0 <= k < |r| ==> r[k] != '/')
            && (LastIndexOf(p, '/').None? ==> r == p)
            && (LastIndexOf(p, '/').Some? ==> |r| == |p| - LastIndexOf(p, '/').value - 1)
  {
    var r := FileName(p);
    if LastIndexOf(p, '/').Some? {
      var i := LastIndexOf(p, '/').value;
      assert forall k :: 0 <= k < |r| ==> r[k] == p[i + 1 + k];
    }
  }

  /** The suffix of a name: from its last `.`, provided that dot neither starts nor ends the
      name; otherwise empty. */
  function NameSuffix(name: string): (r: string)
    ensures r == "" || (r[0] == '.' && |r| >= 2)
    ensures forall k :: 0 < k < |r| ==> r[k] != '.'
    ensures |r| <= |name| && name[|name| - |r|..] == r
    ensures r != "" ==> LastIndexOf(name, '.') == Some(|name| - |r|)
    ensures r == "" <==> (LastIndexOf(name, '.').None? || LastIndexOf(name, '.').value == 0
                          || LastIndexOf(name, '.').value == |name| - 1)
  {
    match LastIndexOf(name, '.')
    case Some(i) =>
      if 0 < i < |name| - 1 then
        assert forall k :: 0 <= k < |name[i..]| ==> name[i..][k] == name[i + k];
        name[i..]
      else ""
    case None => ""
  }

  /** `PurePath(p).suffix`. */
  function Suffix(p: string): (r: string)
    ensures r == "" || (r[0] == '.' && |r| >= 2)
  {
    NameSuffix(FileName(p))
  }

  /** The suffix is a tail of the whole path. */
  lemma {:induction false} SuffixIsTail(p: string)
    ensures |Suffix(p)| <= |p| && p[|p| - |Suffix(p)|..] == Suffix(p)
  {
    FileNameIsLastComponent(p);
    TailOfTail(p, FileName(p), NameSuffix(FileName(p)));
  }

  lemma {:induction false} TailOfTail(s: string, t: string, u: string)
    requires |t| <= |s| && s[|s| - |t|..] == t
    requires |u| <= |t| && t[|t| - |u|..] == u
    ensures s[|s| - |u|..] == u
  {
    assert forall k :: 0 <= k < |u| ==> s[|s| - |u|..][k] == t[|t| - |u|..][k] == u[k];
  }

  /** The name of `p + q` is the name of `q` when `q` holds a `/`, else the name of `p`
      followed by `q`. */
  lemma {:induction false} FileNameAppend(p: string, q: string)
    ensures LastIndexOf(q, '/').Some? ==> FileName(p + q) == FileName(q)
    ensures LastIndexOf(q, '/').None? ==> FileName(p + q) == FileName(p) + q
  {
    if LastIndexOf(q, '/').Some? {
      FileNameAppendSlash(p, q);
    } else {
      FileNameAppendNoSlash(p, q);
    }
  }

  lemma {:induction false} FileNameAppendSlash(p: string, q: string)
    requires LastIndexOf(q, '/').Some?
    ensures FileName(p + q) == FileName(q)
  {
    var j := LastIndexOf(q, '/').value;
    LastIndexOfAppendSome(p, q, '/');
    FileNameAfter(p + q, |p| + j);
    FileNameAfter(q, j);
    DropOfConcatRight(p, q, |p| + j + 1);
  }

  lemma {:induction false} FileNameAppendNoSlash(p: string, q: string)
    requires LastIndexOf(q, '/').None?
    ensures FileName(p + q) == FileName(p) + q
  {
    LastIndexOfAppendNone(p, q, '/');
    if LastIndexOf(p, '/').Some? {
      var i := LastIndexOf(p, '/').value;
      FileNameAfter(p + q, i);
      FileNameAfter(p, i);
      DropOfConcatLeft(p, q, i + 1);
    }
  }

  lemma DropOfConcatRight(p: string, q: string, n: nat)
    requires |p| <= n <= |p| + |q|
    ensures (p + q)[n..] == q[n - |p|..]
  {
  }

  lemma DropOfConcatLeft(p: string, q: string, n: nat)
    requires n <= |p|
    ensures (p + q)[n..] == p[n..] + q
  {
  }

  lemma LastIndexOfAppendSome(a: string, b: string, c: char)
    requires LastIndexOf(b, c).Some?
    ensures LastIndexOf(a + b, c) == Some(|a| + LastIndexOf(b, c).value)
  {
    LastIndexOfAppend(a, b, c);
  }

  lemma LastIndexOfAppendNone(a: string, b: string, c: char)
    requires LastIndexOf(b, c).None?
    ensures LastIndexOf(a + b, c) == LastIndexOf(a, c)
  {
    LastIndexOfAppend(a, b, c);
  }

  lemma FileNameAfter(s: string, i: nat)
    requires LastIndexOf(s, '/') == Some(i)
    ensures FileName(s) == s[i + 1..]
  {
  }

  /** A name that has a suffix keeps it whatever is put in front of it. */
  lemma NameSuffixAppend(a: string, b: string)
    requires NameSuffix(b) != ""
    ensures NameSuffix(a + b) == NameSuffix(b)
  {
    LastIndexOfAppend(a, b, '.');
    var i := LastIndexOf(b, '.').value;
    assert (a + b)[|a| + i..] == b[i..];
  }

  /** Putting anything in front of a path whose name has a suffix keeps that suffix: in
      particular a file keeps its extension when it is copied under a prefixed name. */
  lemma SuffixOfAppend(p: string, q: string)
    requires Suffix(q) != ""
    ensures Suffix(p + q) == Suffix(q)
  {
    FileNameAppend(p, q);
    if LastIndexOf(q, '/').None? {
      assert FileName(q) == q;
      NameSuffixAppend(FileName(p), q);
    }
  }
}
