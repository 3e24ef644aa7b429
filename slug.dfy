/** Slug generation (src/format/slug.ts): the URL-safe processor around the
    external `slugify` library, the Unicode-preserving run chunker, and the
    session that rejects a slug it has already handed out.

    `slugify` and the Unicode `\p{Letter}` test are foreign code; they enter as
    function-valued parameters and nothing is assumed about them. */
module Slug {
  import opened Wrappers
  import opened Text

  /** Module defaults of slug.ts. */
  const DefaultPreserveUnicode := false
  const DefaultSeparator := "_"

  /** The options object handed to `slugify`. */
  datatype SlugifyOptions = SlugifyOptions(
    customReplacements: seq<(string, string)>,
    separator: string,
    decamelize: bool,
    lowercase: bool)

  /** The external `slugify(input, options)` library function. */
  type Slugify = (string, SlugifyOptions) -> string

  /** `$` and `-` are swapped for placeholder words before slugify's own rules run. */
  const Placeholders: seq<(string, string)> := [("$", "DOLLAR"), ("-", "DASH")]

  function UrlSafeOptions(separator: string): SlugifyOptions {
    SlugifyOptions(Placeholders, separator, false, false)
  }

  /** The two global replacements applied to slugify's output: every `DOLLAR`
      becomes `$`, then every `DASH` becomes `-`. Neither word survives, and no
      character appears that was not in `s` apart from `$` and `-`. */
  function RestorePlaceholders(s: string): (r: string)
    ensures !Contains(r, "DOLLAR") && !Contains(r, "DASH")
    ensures forall c :: c in r ==> c in s || c == '$' || c == '-'
  {
    var once := ReplaceAll(s, "DOLLAR", "$");
    ReplaceAllRemoves(s, "DOLLAR", "$");
    ReplaceAllKeepsAbsent(once, "DASH", "-", "DOLLAR");
    ReplaceAllRemoves(once, "DASH", "-");
    ReplaceAllChars(s, "DOLLAR", "$");
    ReplaceAllChars(once, "DASH", "-");
    ReplaceAll(once, "DASH", "-")
  }

  /** Restoring twice is restoring once. */
  lemma RestoreIdempotent(s: string)
    ensures RestorePlaceholders(RestorePlaceholders(s)) == RestorePlaceholders(s)
  {
    var r := RestorePlaceholders(s);
    ReplaceAllIdentity(r, "DOLLAR", "$");
    ReplaceAllIdentity(r, "DASH", "-");
  }

  /** The placeholder words themselves are indistinguishable from the characters
      they stand for: a `DOLLAR` or `DASH` that slugify passes through verbatim
      comes back as `$` or `-`. */
  lemma PlaceholderWordsRestored()
    ensures RestorePlaceholders("DOLLAR") == "$"
    ensures RestorePlaceholders("DASH") == "-"
  {
  }

  /** `url_safe_processor(url, opts?)`: slugify with the placeholder
      replacements, the given separator (default `_`), no decamelizing and no
      lower-casing, then restore the placeholders. */
  function UrlSafe(slugify: Slugify, url: string, separator: Option<string>): (r: string)
    ensures !Contains(r, "DOLLAR") && !Contains(r, "DASH")
    ensures forall c :: c in r ==>
      c in slugify(url, UrlSafeOptions(separator.GetOr(DefaultSeparator))) || c == '$' || c == '-'
  {
    RestorePlaceholders(slugify(url, UrlSafeOptions(separator.GetOr(DefaultSeparator))))
  }

  // ----- Unicode-safe processor ---------------------------------------------

  predicate IsAsciiAlphaNum(c: char) {
    'a' <= c <= 'z' || 'A' <= c <= 'Z' || '0' <= c <= '9'
  }

  datatype ChunkKind = Pass | Process

  /** `isNonAlphaNumUnicode(char) ? "pass" : "process"`. */
  function KindOf(isLetter: char -> bool, c: char): (k: ChunkKind)
    ensures k == Pass <==> !IsAsciiAlphaNum(c) && isLetter(c)
  {
    if !IsAsciiAlphaNum(c) && isLetter(c) then Pass else Process
  }

  datatype Chunk = Chunk(kind: ChunkKind, text: string)

  function Concat(cs: seq<Chunk>): string {
    if cs == [] then [] else cs[0].text + Concat(cs[1..])
  }

  /** A non-empty chunk all of whose characters have the chunk's kind. */
  predicate Homogeneous(isLetter: char -> bool, c: Chunk) {
    |c.text| > 0 && forall i :: 0 <= i < |c.text| ==> KindOf(isLetter, c.text[i]) == c.kind
  }

  /** `cs` cuts `s` into maximal runs: the chunks spell `s` in order, each is
      homogeneous, and neighbours differ in kind. */
  predicate IsRunSplit(isLetter: char -> bool, cs: seq<Chunk>, s: string) {
    && Concat(cs) == s
    && (forall k :: 0 <= k < |cs| ==> Homogeneous(isLetter, cs[k]))
    && (forall k :: 0 < k < |cs| ==> cs[k - 1].kind != cs[k].kind)
  }

  /** The maximal-run decomposition of `s`. */
  function Runs(isLetter: char -> bool, s: string): (cs: seq<Chunk>)
    ensures IsRunSplit(isLetter, cs, s)
    decreases |s|
  {
    if s == [] then []
    else
      var rest := Runs(isLetter, s[1..]);
      var k := KindOf(isLetter, s[0]);
      if rest != [] && rest[0].kind == k then
        assert Concat(rest) == rest[0].text + Concat(rest[1..]);
        [Chunk(k, [s[0]] + rest[0].text)] + rest[1..]
      else
        [Chunk(k, [s[0]])] + rest
  }

  /** Length of the longest prefix of `s` whose characters all have kind `k`. */
  function RunLength(isLetter: char -> bool, s: string, k: ChunkKind): nat
    decreases |s|
  {
    if s == [] || KindOf(isLetter, s[0]) != k then 0 else 1 + RunLength(isLetter, s[1..], k)
  }

  lemma {:induction false} RunLengthExact(isLetter: char -> bool, s: string, k: ChunkKind, n: nat)
    requires n <= |s|
    requires forall i :: 0 <= i < n ==> KindOf(isLetter, s[i]) == k
    requires n == |s| || KindOf(isLetter, s[n]) != k
    ensures RunLength(isLetter, s, k) == n
    decreases n
  {
    if n > 0 {
      RunLengthExact(isLetter, s[1..], k, n - 1);
    }
  }

  lemma ConcatEmpty(isLetter: char -> bool, cs: seq<Chunk>, s: string)
    requires IsRunSplit(isLetter, cs, s)
    ensures cs == [] <==> s == []
  {
    if cs != [] {
      assert |cs[0].text| > 0;
      assert Concat(cs) == cs[0].text + Concat(cs[1..]);
    }
  }

  /** The first chunk of any run split is the maximal first run. */
  lemma FirstRun(isLetter: char -> bool, cs: seq<Chunk>, s: string)
    requires IsRunSplit(isLetter, cs, s) && cs != []
    ensures |cs[0].text| <= |s| && cs[0].text == s[..|cs[0].text|]
    ensures cs[0].kind == KindOf(isLetter, s[0])
    ensures |cs[0].text| == RunLength(isLetter, s, cs[0].kind)
    ensures IsRunSplit(isLetter, cs[1..], s[|cs[0].text|..])
  {
    var x := cs[0];
    var n := |x.text|;
    assert s == x.text + Concat(cs[1..]);
    assert Homogeneous(isLetter, x);
    assert s[0] == x.text[0];
    if |cs| > 1 {
      assert Concat(cs[1..]) == cs[1].text + Concat(cs[2..]);
      assert Homogeneous(isLetter, cs[1]);
      assert s[n] == cs[1].text[0];
      assert cs[0].kind != cs[1].kind;
    } else {
      assert Concat(cs[1..]) == [];
    }
    RunLengthExact(isLetter, s, x.kind, n);
    forall k | 0 <= k < |cs[1..]| ensures Homogeneous(isLetter, cs[1..][k]) {
      assert cs[1..][k] == cs[k + 1];
    }
  }

  /** Maximal runs are unique: any split with the three properties is `Runs(s)`. */
  lemma {:induction false} RunSplitUnique(isLetter: char -> bool, a: seq<Chunk>, b: seq<Chunk>, s: string)
    requires IsRunSplit(isLetter, a, s) && IsRunSplit(isLetter, b, s)
    ensures a == b
    decreases |s|
  {
    ConcatEmpty(isLetter, a, s);
    ConcatEmpty(isLetter, b, s);
    if s != [] {
      FirstRun(isLetter, a, s);
      FirstRun(isLetter, b, s);
      assert a[0] == b[0];
      var n := |a[0].text|;
      RunSplitUnique(isLetter, a[1..], b[1..], s[n..]);
      assert a == [a[0]] + a[1..];
      assert b == [b[0]] + b[1..];
    }
  }

  lemma {:induction false} ConcatSnoc(cs: seq<Chunk>, c: Chunk)
    ensures Concat(cs + [c]) == Concat(cs) + c.text
  {
    if cs != [] {
      assert (cs + [c])[1..] == cs[1..] + [c];
      ConcatSnoc(cs[1..], c);
    }
  }

  lemma {:induction false} ConcatAppend(a: seq<Chunk>, b: seq<Chunk>)
    ensures Concat(a + b) == Concat(a) + Concat(b)
  {
    if a == [] {
      assert a + b == b;
    } else {
      assert (a + b)[0] == a[0] && (a + b)[1..] == a[1..] + b;
      ConcatAppend(a[1..], b);
    }
  }

  /** The last chunk of any run split has the kind of the last character. */
  lemma LastRun(isLetter: char -> bool, cs: seq<Chunk>, s: string)
    requires IsRunSplit(isLetter, cs, s) && cs != []
    ensures s != [] && cs[|cs| - 1].kind == KindOf(isLetter, s[|s| - 1])
  {
    var last := cs[|cs| - 1];
    assert cs == cs[..|cs| - 1] + [last];
    ConcatSnoc(cs[..|cs| - 1], last);
    assert Homogeneous(isLetter, last);
    assert s[|s| - 1] == last.text[|last.text| - 1];
  }

  /** Two run splits whose meeting chunks differ in kind make a run split of
      the concatenation. */
  lemma SplitAppend(isLetter: char -> bool, a: seq<Chunk>, p: string, b: seq<Chunk>, q: string)
    requires IsRunSplit(isLetter, a, p) && IsRunSplit(isLetter, b, q)
    requires a != [] && b != [] && a[|a| - 1].kind != b[0].kind
    ensures IsRunSplit(isLetter, a + b, p + q)
  {
    var c := a + b;
    ConcatAppend(a, b);
    forall k | 0 <= k < |c| ensures Homogeneous(isLetter, c[k]) {
      if k < |a| {
        assert c[k] == a[k];
      } else {
        assert c[k] == b[k - |a|];
      }
    }
    forall k | 0 < k < |c| ensures c[k - 1].kind != c[k].kind {
      if k < |a| {
        assert c[k - 1] == a[k - 1] && c[k] == a[k];
      } else if k > |a| {
        assert c[k - 1] == b[k - 1 - |a|] && c[k] == b[k - |a|];
      } else {
        assert c[k - 1] == a[|a| - 1] && c[k] == b[0];
      }
    }
  }

  /** Where the kind changes between two texts, the runs of the whole are the
      runs of the first followed by the runs of the second. */
  lemma RunsAppend(isLetter: char -> bool, p: string, q: string)
    requires p != [] && q != [] && KindOf(isLetter, p[|p| - 1]) != KindOf(isLetter, q[0])
    ensures Runs(isLetter, p + q) == Runs(isLetter, p) + Runs(isLetter, q)
  {
    var a, b := Runs(isLetter, p), Runs(isLetter, q);
    ConcatEmpty(isLetter, a, p);
    ConcatEmpty(isLetter, b, q);
    LastRun(isLetter, a, p);
    FirstRun(isLetter, b, q);
    SplitAppend(isLetter, a, p, b, q);
    RunSplitUnique(isLetter, a + b, Runs(isLetter, p + q), p + q);
  }

  /** The reduce step that appends a character to the current chunk. */
  lemma SplitGrow(isLetter: char -> bool, cs: seq<Chunk>, cur: Chunk, s: string, ch: char)
    requires IsRunSplit(isLetter, cs + [cur], s)
    requires KindOf(isLetter, ch) == cur.kind
    ensures IsRunSplit(isLetter, cs + [cur.(text := cur.text + [ch])], s + [ch])
  {
    var cur' := cur.(text := cur.text + [ch]);
    ConcatSnoc(cs, cur);
    ConcatSnoc(cs, cur');
    assert Homogeneous(isLetter, (cs + [cur])[|cs|]);
    var t := cs + [cur'];
    forall k | 0 <= k < |t| ensures Homogeneous(isLetter, t[k]) {
      if k < |cs| {
        assert t[k] == (cs + [cur])[k];
      }
    }
    forall k | 0 < k < |t| ensures t[k - 1].kind != t[k].kind {
      assert (cs + [cur])[k - 1].kind != (cs + [cur])[k].kind;
    }
  }

  /** The reduce step that closes the current chunk and opens a new one. */
  lemma SplitPush(isLetter: char -> bool, cs: seq<Chunk>, cur: Chunk, s: string, ch: char)
    requires IsRunSplit(isLetter, cs + [cur], s)
    requires KindOf(isLetter, ch) != cur.kind
    ensures IsRunSplit(isLetter, (cs + [cur]) + [Chunk(KindOf(isLetter, ch), [ch])], s + [ch])
  {
    ConcatSnoc(cs + [cur], Chunk(KindOf(isLetter, ch), [ch]));
    var t := (cs + [cur]) + [Chunk(KindOf(isLetter, ch), [ch])];
    forall k | 0 <= k < |t| ensures Homogeneous(isLetter, t[k]) {
      if k < |cs| + 1 {
        assert t[k] == (cs + [cur])[k];
      }
    }
    forall k | 0 < k < |t| ensures t[k - 1].kind != t[k].kind {
      if k < |cs| + 1 {
        assert (cs + [cur])[k - 1].kind != (cs + [cur])[k].kind;
      }
    }
  }

  /** The first `reduce` of `unicode_safe_processor`: walk the characters,
      extend the current chunk while the kind stays the same, push it when the
      kind changes and after the last character. */
  method SplitChunks(isLetter: char -> bool, url: string) returns (chunks: seq<Chunk>)
    ensures chunks == Runs(isLetter, url)
  {
    chunks := [];
    var current := Chunk(Process, "");
    for i := 0 to |url|
      invariant i == 0 ==> chunks == []
      invariant 0 < i < |url| ==> IsRunSplit(isLetter, chunks + [current], url[..i])
      invariant 0 < i == |url| ==> IsRunSplit(isLetter, chunks, url)
    {
      var c := url[i];
      var kind := KindOf(isLetter, c);
      assert url[..i + 1] == url[..i] + [c];
      if i == 0 {
        current := Chunk(kind, [c]);
        assert Concat(chunks + [current]) == [c] + Concat([]);
      } else if kind == current.kind {
        SplitGrow(isLetter, chunks, current, url[..i], c);
        current := current.(text := current.text + [c]);
      } else {
        SplitPush(isLetter, chunks, current, url[..i], c);
        chunks := chunks + [current];
        current := Chunk(kind, [c]);
      }
      if i == |url| - 1 {
        chunks := chunks + [current];
        assert url[..i + 1] == url;
      }
    }
    RunSplitUnique(isLetter, chunks, Runs(isLetter, url), url);
  }

  /** A chunk after the second `reduce`: process chunks go through the URL-safe
      processor with no options (so with the default separator), pass chunks
      are kept as they are. */
  function ProcessChunk(slugify: Slugify, c: Chunk): (r: string)
    ensures c.kind == Pass ==> r == c.text
    ensures c.kind == Process ==> !Contains(r, "DOLLAR") && !Contains(r, "DASH")
  {
    if c.kind == Process then UrlSafe(slugify, c.text, None) else c.text
  }

  /** The processed chunks that are not empty, in order. */
  function KeptParts(slugify: Slugify, cs: seq<Chunk>): (parts: seq<string>)
    ensures |parts| <= |cs|
    ensures forall i :: 0 <= i < |parts| ==> |parts[i]| > 0
  {
    if cs == [] then []
    else
      var p := ProcessChunk(slugify, cs[|cs| - 1]);
      KeptParts(slugify, cs[..|cs| - 1]) + (if |p| > 0 then [p] else [])
  }

  /** One chunk is kept exactly when its processed text is not empty. */
  lemma KeptOne(slugify: Slugify, c: Chunk)
    ensures var p := ProcessChunk(slugify, c);
      KeptParts(slugify, [c]) == if |p| > 0 then [p] else []
  {
    assert [c][..0] == [];
  }

  /** Keeping distributes over concatenation, so the kept parts keep the
      chunks' order. */
  lemma {:induction false} KeptPartsAppend(slugify: Slugify, a: seq<Chunk>, b: seq<Chunk>)
    ensures KeptParts(slugify, a + b) == KeptParts(slugify, a) + KeptParts(slugify, b)
    decreases |b|
  {
    if b == [] {
      assert a + b == a;
    } else {
      var init := b[..|b| - 1];
      assert (a + b)[..|a + b| - 1] == a + init;
      assert (a + b)[|a + b| - 1] == b[|b| - 1];
      KeptPartsAppend(slugify, a, init);
    }
  }

  /** `unicode_safe_processor(url, opts?)`: split into maximal runs, process
      each, drop empty results, join with the separator (default `_`). */
  function UnicodeSafe(slugify: Slugify, isLetter: char -> bool, url: string, separator: Option<string>): (r: string)
    ensures url == [] ==> r == []
  {
    Join(KeptParts(slugify, Runs(isLetter, url)), separator.GetOr(DefaultSeparator))
  }

  method UnicodeSafeProcessor(slugify: Slugify, isLetter: char -> bool, url: string, separator: Option<string>)
    returns (slug: string)
    ensures slug == UnicodeSafe(slugify, isLetter, url, separator)
  {
    var sep := separator.GetOr(DefaultSeparator);
    var chunks := SplitChunks(isLetter, url);
    var parts: seq<string> := [];
    for i := 0 to |chunks|
      invariant parts == KeptParts(slugify, chunks[..i])
    {
      var processed := if chunks[i].kind == Process then UrlSafe(slugify, chunks[i].text, None) else chunks[i].text;
      assert KeptParts(slugify, chunks[..i + 1]) == parts + if |processed| > 0 then [processed] else [] by {
        assert chunks[..i + 1][..i] == chunks[..i] && chunks[..i + 1][i] == chunks[i];
      }
      if |processed| > 0 {
        parts := parts + [processed];
      }
    }
    assert chunks[..|chunks|] == chunks;
    slug := Join(parts, sep);
  }

  /** A single maximal run is its own split. */
  lemma SingleRun(isLetter: char -> bool, url: string, k: ChunkKind)
    requires url != []
    requires forall i :: 0 <= i < |url| ==> KindOf(isLetter, url[i]) == k
    ensures Runs(isLetter, url) == [Chunk(k, url)]
  {
    var cs := [Chunk(k, url)];
    assert cs[1..] == [];
    assert Concat(cs) == url;
    assert Homogeneous(isLetter, cs[0]);
    assert IsRunSplit(isLetter, cs, url);
    RunSplitUnique(isLetter, cs, Runs(isLetter, url), url);
  }

  /** Text made only of non-ASCII letters comes back unchanged. */
  lemma UnicodeSafeAllPass(slugify: Slugify, isLetter: char -> bool, url: string, separator: Option<string>)
    requires url != []
    requires forall i :: 0 <= i < |url| ==> KindOf(isLetter, url[i]) == Pass
    ensures UnicodeSafe(slugify, isLetter, url, separator) == url
  {
    SingleRun(isLetter, url, Pass);
    assert [Chunk(Pass, url)][..0] == [];
  }

  /** Text without non-ASCII letters is slugified with the DEFAULT separator,
      whatever separator the caller asked for. */
  lemma UnicodeSafeAllProcess(slugify: Slugify, isLetter: char -> bool, url: string, separator: Option<string>)
    requires url != []
    requires forall i :: 0 <= i < |url| ==> KindOf(isLetter, url[i]) == Process
    ensures UnicodeSafe(slugify, isLetter, url, separator) == UrlSafe(slugify, url, None)
  {
    SingleRun(isLetter, url, Process);
    assert [Chunk(Process, url)][..0] == [];
  }

  /** A run of non-ASCII letters followed by an ASCII phrase: the letters are
      kept verbatim as their own segment, the phrase is slugified, and the
      two are joined by the caller's separator. */
  lemma UnicodeSafeTwoRuns(slugify: Slugify, isLetter: char -> bool, p: string, q: string, separator: Option<string>)
    requires p != [] && q != []
    requires forall i :: 0 <= i < |p| ==> KindOf(isLetter, p[i]) == Pass
    requires forall i :: 0 <= i < |q| ==> KindOf(isLetter, q[i]) == Process
    requires UrlSafe(slugify, q, None) != []
    ensures UnicodeSafe(slugify, isLetter, p + q, separator)
         == p + separator.GetOr(DefaultSeparator) + UrlSafe(slugify, q, None)
  {
    var cs := [Chunk(Pass, p), Chunk(Process, q)];
    assert cs[1..][1..] == [];
    assert Concat(cs[1..]) == q;
    assert Concat(cs) == p + q;
    assert Homogeneous(isLetter, cs[0]) && Homogeneous(isLetter, cs[1]);
    RunSplitUnique(isLetter, cs, Runs(isLetter, p + q), p + q);
    assert cs[..1] == [Chunk(Pass, p)];
    assert cs[..1][..0] == [];
    assert KeptParts(slugify, cs[..1]) == [p];
    assert KeptParts(slugify, cs) == [p, UrlSafe(slugify, q, None)];
    var u := UrlSafe(slugify, q, None);
    var sep := separator.GetOr(DefaultSeparator);
    assert [p, u][1..] == [u];
    assert Join([p, u], sep) == p + sep + u;
    assert UnicodeSafe(slugify, isLetter, p + q, separator) == Join(KeptParts(slugify, cs), sep);
  }

  /** Where the kind changes between `p` and `q`, the slug of `p + q` is the
      slugs of `p` and `q` joined by the caller's separator, or only the one
      that is not empty. */
  lemma UnicodeSafeAppend(slugify: Slugify, isLetter: char -> bool, p: string, q: string, separator: Option<string>)
    requires p != [] && q != [] && KindOf(isLetter, p[|p| - 1]) != KindOf(isLetter, q[0])
    ensures var sep := separator.GetOr(DefaultSeparator);
      var l, r := UnicodeSafe(slugify, isLetter, p, separator), UnicodeSafe(slugify, isLetter, q, separator);
      UnicodeSafe(slugify, isLetter, p + q, separator) == if l == [] then r else if r == [] then l else l + sep + r
  {
    var sep := separator.GetOr(DefaultSeparator);
    var a, b := KeptParts(slugify, Runs(isLetter, p)), KeptParts(slugify, Runs(isLetter, q));
    RunsAppend(isLetter, p, q);
    KeptPartsAppend(slugify, Runs(isLetter, p), Runs(isLetter, q));
    JoinAppend(a, b, sep);
    assert a != [] ==> |a[0]| > 0;
    assert b != [] ==> |b[0]| > 0;
  }

  // ----- Session -------------------------------------------------------------

  datatype SlugError = DuplicateSlug(slug: string) {
    function Message(): string { "Duplicate slug " + slug }
  }

  /** The options object of `make_session_slug_processor`; absent fields take
      the module defaults. */
  datatype SessionOptions = SessionOptions(preserveUnicode: Option<bool>, separator: Option<string>)

  /** The processor a session picks, applied with the session's separator. */
  function SessionSlug(slugify: Slugify, isLetter: char -> bool, preserveUnicode: bool, separator: string, url: string): (r: string)
    ensures !preserveUnicode ==> !Contains(r, "DOLLAR") && !Contains(r, "DASH")
    ensures preserveUnicode && url == [] ==> r == []
  {
    if preserveUnicode then UnicodeSafe(slugify, isLetter, url, Some(separator))
    else UrlSafe(slugify, url, Some(separator))
  }

  /** The closure returned by `make_session_slug_processor`, with its `seen` set. */
  class SlugSession {
    const slugify: Slugify
    const isLetter: char -> bool
    const preserveUnicode: bool
    const separator: string
    var seen: set<string>

    constructor (slugify: Slugify, isLetter: char -> bool, options: SessionOptions)
      ensures this.slugify == slugify && this.isLetter == isLetter
      ensures preserveUnicode == options.preserveUnicode.GetOr(DefaultPreserveUnicode)
      ensures separator == options.separator.GetOr(DefaultSeparator)
      ensures seen == {}
    {
      this.slugify := slugify;
      this.isLetter := isLetter;
      preserveUnicode := options.preserveUnicode.GetOr(DefaultPreserveUnicode);
      separator := options.separator.GetOr(DefaultSeparator);
      seen := {};
    }

    /** The slug this session computes for `url`, before the duplicate check. */
    function SlugOf(url: string): string {
      SessionSlug(slugify, isLetter, preserveUnicode, separator, url)
    }

    /** One call of the session closure: a repeated slug fails and leaves
        `seen` alone; a new one is added to `seen`, which grows by exactly one. */
    method Slug(url: string) returns (r: Result<string, SlugError>)
      modifies this
      ensures SlugOf(url) in old(seen) ==> r == Failure(DuplicateSlug(SlugOf(url))) && seen == old(seen)
      ensures SlugOf(url) !in old(seen) ==>
        && r == Success(SlugOf(url))
        && seen == old(seen) + {SlugOf(url)}
        && |seen| == |old(seen)| + 1
    {
      var slug;
      if preserveUnicode {
        slug := UnicodeSafeProcessor(slugify, isLetter, url, Some(separator));
      } else {
        slug := UrlSafe(slugify, url, Some(separator));
      }
      if slug in seen {
        return Failure(DuplicateSlug(slug));
      }
      seen := seen + {slug};
      r := Success(slug);
    }
  }

  /** The same text given twice to one session: the first call succeeds, the
      second fails with the first call's slug. */
  method RepeatedSlugFails(slugify: Slugify, isLetter: char -> bool, options: SessionOptions, url: string)
    returns (first: Result<string, SlugError>, second: Result<string, SlugError>)
    ensures first.Success?
    ensures second == Failure(DuplicateSlug(first.value))
  {
    var session := new SlugSession(slugify, isLetter, options);
    first := session.Slug(url);
    second := session.Slug(url);
  }

  /** Two sessions do not share their `seen` sets: a slug accepted by one is
      still accepted by the other, while the first rejects it on a repeat. */
  method SessionsAreIndependent(slugify: Slugify, isLetter: char -> bool, options: SessionOptions, url: string)
    returns (a: Result<string, SlugError>, b: Result<string, SlugError>, again: Result<string, SlugError>)
    ensures a.Success? && b == a
    ensures again == Failure(DuplicateSlug(a.value))
  {
    var one := new SlugSession(slugify, isLetter, options);
    var two := new SlugSession(slugify, isLetter, options);
    a := one.Slug(url);
    b := two.Slug(url);
    again := one.Slug(url);
  }
}
