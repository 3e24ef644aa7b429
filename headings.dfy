/** Heading processing (src/format/headings.ts): the depth check, and the
    visitor that mints a hierarchical slug per heading, builds the nested
    table of contents and injects two anchor elements.

    The markdown helpers (`mdast-util-to-string`, `mdast-util-to-hast`,
    `unist-util-visit`) are foreign: a heading arrives with its depth, its
    plain text and its already rendered children.

    The section stack is a stack of references to lists. Every list pushed is
    the `sections` list of the last entry of the list below it, and only the
    top list ever grows, so the stack is always the rightmost path of the
    table of contents. It is modelled as the tree `toc` (the bottom list) and
    the number `open` of lists on the stack. */
module Headings {
  import opened Wrappers
  import opened Slug

  /** The module-level session of headings.ts. */
  const HeadingPreserveUnicode := false
  const HeadingSeparator := "-"

  datatype HeadingError =
    | InvalidHeadingDepth(depth: int)
    /** the session rejected the heading's slug */
    | SessionError(cause: SlugError)
    /** a deeper heading while the top section list has no entry (a TypeError in the source) */
    | MissingParentEntry
    /** the section stack was popped empty (a TypeError in the source) */
    | EmptySectionStack

  predicate ValidDepth(depth: int) {
    3 <= depth <= 5
  }

  // ----- Heading nodes and anchor injection ----------------------------------

  datatype Prop = Strings(values: seq<string>) | Str(value: string) | Flag(on: bool)

  /** A hast node: an element with properties, or a node rendered by the
      foreign markdown-to-hast conversion, identified only by a handle. */
  datatype HastNode = Element(tagName: string, properties: map<string, Prop>) | Rendered(handle: nat)

  /** A heading of the markdown tree; the visitor writes `hChildren`. */
  class HeadingNode {
    const depth: int
    /** the heading's plain text */
    const text: string
    /** the children of the heading converted to hast */
    const rendered: seq<HastNode>
    var hChildren: seq<HastNode>

    constructor (depth: int, text: string, rendered: seq<HastNode>)
      ensures this.depth == depth && this.text == text && this.rendered == rendered
      ensures hChildren == []
    {
      this.depth := depth;
      this.text := text;
      this.rendered := rendered;
      hChildren := [];
    }
  }

  /** `validate_headings`: the first heading, in document order, whose depth is
      outside 3..5 fails validation with that depth. */
  function ValidateHeadings(nodes: seq<HeadingNode>): (r: Result<(), HeadingError>)
    ensures r.Success? <==> forall i :: 0 <= i < |nodes| ==> ValidDepth(nodes[i].depth)
    ensures r.Failure? ==>
      exists i :: 0 <= i < |nodes| && !ValidDepth(nodes[i].depth)
                  && r.error == InvalidHeadingDepth(nodes[i].depth)
                  && (forall j :: 0 <= j < i ==> ValidDepth(nodes[j].depth))
  {
    if nodes == [] then Success(())
    else if !ValidDepth(nodes[0].depth) then Failure(InvalidHeadingDepth(nodes[0].depth))
    else
      var rest := ValidateHeadings(nodes[1..]);
      assert forall i :: 1 <= i < |nodes| ==> nodes[i] == nodes[1..][i - 1];
      rest
  }

  /** The invisible target `<span id=slug class="offset-anchor">`, which also
      carries `data-scrollignore` on headings deeper than level 4. */
  function OffsetAnchor(slug: string, depth: int): (r: HastNode)
    ensures r.Element? && r.tagName == "span"
    ensures "id" in r.properties && r.properties["id"] == Strings([slug])
    ensures "className" in r.properties && r.properties["className"] == Strings(["offset-anchor"])
    ensures "data-scrollignore" in r.properties <==> depth > 4
  {
    var props := map["id" := Strings([slug]), "className" := Strings(["offset-anchor"])];
    Element("span", if depth > 4 then props["data-scrollignore" := Flag(true)] else props)
  }

  /** The link back to the heading, `<a href="dir#slug" class="anchor" aria-hidden>`. */
  function LinkAnchor(dir: string, slug: string): (r: HastNode)
    ensures r.Element? && r.tagName == "a"
    ensures "href" in r.properties && r.properties["href"] == Str(dir + "#" + slug)
    ensures "className" in r.properties && r.properties["className"] == Strings(["anchor"])
    ensures "aria-hidden" in r.properties && r.properties["aria-hidden"] == Flag(true)
  {
    Element("a", map["href" := Str(dir + "#" + slug), "className" := Strings(["anchor"]), "aria-hidden" := Flag(true)])
  }

  /** The heading's new `hChildren`: the two anchors, then the rendered
      children unchanged and in order. */
  function AnchorChildren(dir: string, slug: string, depth: int, rendered: seq<HastNode>): (r: seq<HastNode>)
    ensures |r| == |rendered| + 2 && r[2..] == rendered
    ensures r[0].Element? && r[0].tagName == "span"
    ensures "id" in r[0].properties && r[0].properties["id"] == Strings([slug])
    ensures "data-scrollignore" in r[0].properties <==> depth > 4
    ensures r[1].Element? && r[1].tagName == "a"
    ensures "href" in r[1].properties && r[1].properties["href"] == Str(dir + "#" + slug)
  {
    [OffsetAnchor(slug, depth), LinkAnchor(dir, slug)] + rendered
  }

  // ----- Slug stack ------------------------------------------------------------

  /** The slug stack after the pops at the start of a visit: when the heading is
      shallower than the previous one and the stack is not empty,
      `prevLevel - depth + 1` entries go, popping an empty stack doing nothing. */
  function PopSlugs(slugs: seq<string>, prevLevel: int, depth: int): (r: seq<string>)
    ensures r <= slugs
    ensures depth < prevLevel && slugs != [] ==>
      |r| == if |slugs| >= prevLevel - depth + 1 then |slugs| - (prevLevel - depth + 1) else 0
    ensures depth >= prevLevel || slugs == [] ==> r == slugs
  {
    if depth < prevLevel && slugs != [] then
      var n := prevLevel - depth + 1;
      slugs[..if |slugs| >= n then |slugs| - n else 0]
    else slugs
  }

  /** The text handed to the session: the section title for a depth-3 heading,
      the slug on top of the stack otherwise (an empty stack joins as ""). */
  function Seed(sectionTitle: string, slugs: seq<string>, depth: int, text: string): string {
    (if depth == 3 then sectionTitle else if slugs == [] then "" else slugs[|slugs| - 1]) + " " + text
  }

  /** A seed ends with a space and the heading's text, and starts with the
      section title at depth 3 and with the top slug, if any, below it. */
  lemma SeedParts(sectionTitle: string, slugs: seq<string>, depth: int, text: string)
    ensures var r := Seed(sectionTitle, slugs, depth, text);
      && |text| < |r| && r[|r| - |text| - 1..] == " " + text
      && (depth == 3 ==> sectionTitle <= r)
      && (depth != 3 && slugs != [] ==> slugs[|slugs| - 1] <= r)
      && (depth != 3 && slugs == [] ==> r == " " + text)
  {
  }

  /** Nothing is popped for a heading at the same or a greater depth, so a
      depth-4 or depth-5 heading that follows a sibling builds its seed on that
      sibling's slug, not on the parent's. */
  lemma SiblingSeed(sectionTitle: string, slugs: seq<string>, s: string, prevDepth: int, depth: int, text: string)
    requires depth >= prevDepth && depth != 3
    ensures Seed(sectionTitle, PopSlugs(slugs + [s], prevDepth, depth), depth, text) == s + " " + text
  {
  }

  // ----- Table of contents -----------------------------------------------------

  datatype Entry = Entry(slug: string, title: string, sections: seq<Entry>)

  /** The lists at levels 0..k of the rightmost path of `toc` exist. */
  predicate Reaches(toc: seq<Entry>, k: nat) {
    k == 0 || (|toc| > 0 && Reaches(toc[|toc| - 1].sections, k - 1))
  }

  /** The list at level k of the rightmost path: `section_stack[k]`. */
  function ListAt(toc: seq<Entry>, k: nat): seq<Entry>
    requires Reaches(toc, k)
  {
    if k == 0 then toc else ListAt(toc[|toc| - 1].sections, k - 1)
  }

  /** `toc` with `e` appended to the list at level k of the rightmost path. */
  function AppendAt(toc: seq<Entry>, k: nat, e: Entry): seq<Entry>
    requires Reaches(toc, k)
  {
    if k == 0 then toc + [e]
    else
      var last := toc[|toc| - 1];
      toc[..|toc| - 1] + [last.(sections := AppendAt(last.sections, k - 1, e))]
  }

  datatype OutlineItem = OutlineItem(slug: string, title: string, level: nat)

  /** Every entry of the tree in document order, with its nesting level. */
  function Outline(toc: seq<Entry>, level: nat): seq<OutlineItem> {
    if toc == [] then []
    else
      var last := toc[|toc| - 1];
      Outline(toc[..|toc| - 1], level) + [OutlineItem(last.slug, last.title, level)] + Outline(last.sections, level + 1)
  }

  lemma {:induction false} ReachesLower(toc: seq<Entry>, k: nat, j: nat)
    requires Reaches(toc, k) && j <= k
    ensures Reaches(toc, j)
  {
    if j > 0 {
      ReachesLower(toc[|toc| - 1].sections, k - 1, j - 1);
    }
  }

  lemma {:induction false} ReachesNext(toc: seq<Entry>, k: nat)
    requires Reaches(toc, k) && |ListAt(toc, k)| > 0
    ensures Reaches(toc, k + 1)
  {
    if k > 0 {
      ReachesNext(toc[|toc| - 1].sections, k - 1);
    }
  }

  /** Appending at level k leaves the path to level k in place and grows the
      level-k list by exactly the new entry. */
  lemma {:induction false} AppendAtList(toc: seq<Entry>, k: nat, e: Entry)
    requires Reaches(toc, k)
    ensures Reaches(AppendAt(toc, k, e), k)
    ensures ListAt(AppendAt(toc, k, e), k) == ListAt(toc, k) + [e]
  {
    if k > 0 {
      AppendAtList(toc[|toc| - 1].sections, k - 1, e);
    }
  }

  /** Appending a leaf on the rightmost path adds it at the END of the outline,
      at the level it was appended at. */
  lemma {:induction false} OutlineAppend(toc: seq<Entry>, k: nat, e: Entry, level: nat)
    requires Reaches(toc, k) && e.sections == []
    ensures Outline(AppendAt(toc, k, e), level) == Outline(toc, level) + [OutlineItem(e.slug, e.title, level + k)]
  {
    if k == 0 {
      assert (toc + [e])[..|toc|] == toc;
    } else {
      var last := toc[|toc| - 1];
      var init := toc[..|toc| - 1];
      var toc' := AppendAt(toc, k, e);
      assert toc'[..|toc'| - 1] == init;
      OutlineAppend(last.sections, k - 1, e, level + 1);
    }
  }

  /** What the section stack part of a visit works on. */
  datatype TocState = TocState(toc: seq<Entry>, open: nat, prevLevel: int)

  predicate TocValid(st: TocState) {
    st.open == 0 || Reaches(st.toc, st.open - 1)
  }

  /** `n` pops of a stack of height `open`; popping an empty stack does nothing. */
  function Drop(open: nat, n: nat): nat {
    if open >= n then open - n else 0
  }

  /** The state after appending the leaf `e` to the top list of a stack of
      height `open`: the top list grows by exactly that entry. */
  function AppendTop(toc: seq<Entry>, open: nat, depth: int, e: Entry): (r: TocState)
    requires open > 0 && Reaches(toc, open - 1)
    ensures TocValid(r) && r.open == open && r.prevLevel == depth
    ensures ListAt(r.toc, open - 1) == ListAt(toc, open - 1) + [e]
  {
    AppendAtList(toc, open - 1, e);
    TocState(AppendAt(toc, open - 1, e), open, depth)
  }

  /** ... and the outline grows by exactly that entry, at level `open - 1`. */
  lemma AppendTopOutline(toc: seq<Entry>, open: nat, depth: int, e: Entry)
    requires open > 0 && Reaches(toc, open - 1) && e.sections == []
    ensures Outline(AppendTop(toc, open, depth, e).toc, 0) == Outline(toc, 0) + [OutlineItem(e.slug, e.title, open - 1)]
  {
    OutlineAppend(toc, open - 1, e, 0);
  }

  /** The section-stack step of a visit, popping `pops` lists when the heading
      is shallower than the previous one: push the last entry's list when it is
      deeper, then append the new entry to the top list. */
  function SectionStepPopping(st: TocState, depth: int, e: Entry, pops: nat): (r: Result<TocState, HeadingError>)
    requires TocValid(st)
    ensures r.Success? ==> r.value.open > 0 && Reaches(st.toc, r.value.open - 1)
    ensures r.Success? ==> r.value == AppendTop(st.toc, r.value.open, depth, e)
    ensures r.Success? && depth > st.prevLevel ==> r.value.open == st.open + 1
    ensures r.Success? && depth < st.prevLevel ==> r.value.open == Drop(st.open, pops)
    ensures r.Success? && depth == st.prevLevel ==> r.value.open == st.open
    ensures r.Failure? ==> r.error == if depth > st.prevLevel then MissingParentEntry else EmptySectionStack
  {
    if depth > st.prevLevel then
      if st.open == 0 || |ListAt(st.toc, st.open - 1)| == 0 then Failure(MissingParentEntry)
      else
        ReachesNext(st.toc, st.open - 1);
        Success(AppendTop(st.toc, st.open + 1, depth, e))
    else
      var open := if depth < st.prevLevel then Drop(st.open, pops) else st.open;
      if open == 0 then Failure(EmptySectionStack)
      else
        ReachesLower(st.toc, st.open - 1, open - 1);
        Success(AppendTop(st.toc, open, depth, e))
  }

  /** The section step as headings.ts writes it: ONE pop when the heading is
      shallower, however many levels it climbs. */
  function SectionStepAsWritten(st: TocState, depth: int, e: Entry): (r: Result<TocState, HeadingError>)
    requires TocValid(st)
    ensures r.Success? && depth < st.prevLevel ==> r.value.open == Drop(st.open, 1)
  {
    SectionStepPopping(st, depth, e, 1)
  }

  /** The corrected section step: a heading that climbs `prevLevel - depth`
      levels closes that many lists. When the stack height is `prevLevel - 2`
      and no level is skipped going deeper, it stays `depth - 2`. */
  function SectionStep(st: TocState, depth: int, e: Entry): (r: Result<TocState, HeadingError>)
    requires TocValid(st)
    ensures st.open > 0 && st.open + 2 == st.prevLevel && 3 <= depth <= st.prevLevel + 1
         && (depth > st.prevLevel ==> |ListAt(st.toc, st.open - 1)| > 0)
         ==> r.Success? && r.value.open + 2 == depth
  {
    SectionStepPopping(st, depth, e, if depth < st.prevLevel then st.prevLevel - depth else 0)
  }

  datatype TocItem = TocItem(depth: int, slug: string, title: string)

  /** One heading's section-stack step, corrected or as written. */
  function StepItem(mid: TocState, it: TocItem, asWritten: bool): (r: Result<TocState, HeadingError>)
    requires TocValid(mid)
    ensures r.Success? ==> TocValid(r.value) && r.value.open > 0 && Reaches(mid.toc, r.value.open - 1)
    ensures r.Success? ==> r.value == AppendTop(mid.toc, r.value.open, it.depth, Entry(it.slug, it.title, []))
  {
    var e := Entry(it.slug, it.title, []);
    if asWritten then SectionStepAsWritten(mid, it.depth, e) else SectionStep(mid, it.depth, e)
  }

  /** The section-stack steps of a whole document, stopping at the first error. */
  function Build(st: TocState, items: seq<TocItem>, asWritten: bool): (r: Result<TocState, HeadingError>)
    requires TocValid(st)
    ensures r.Success? ==> TocValid(r.value)
    ensures items == [] ==> r == Success(st)
    ensures r.Success? && items != [] ==> r.value.open > 0 && r.value.prevLevel == items[|items| - 1].depth
    ensures r.Failure? ==> r.error == MissingParentEntry || r.error == EmptySectionStack
    decreases |items|
  {
    if items == [] then Success(st)
    else
      match Build(st, items[..|items| - 1], asWritten)
      case Failure(err) => Failure(err)
      case Success(mid) => StepItem(mid, items[|items| - 1], asWritten)
  }

  /** The slug and title of each outline entry, in order. */
  function Headlines(o: seq<OutlineItem>): seq<(string, string)> {
    if o == [] then [] else Headlines(o[..|o| - 1]) + [(o[|o| - 1].slug, o[|o| - 1].title)]
  }

  /** The slug and title of each heading, in document order. */
  function ItemHeadlines(items: seq<TocItem>): seq<(string, string)> {
    if items == [] then [] else ItemHeadlines(items[..|items| - 1]) + [(items[|items| - 1].slug, items[|items| - 1].title)]
  }

  lemma HeadlinesSnoc(o: seq<OutlineItem>, x: OutlineItem)
    ensures Headlines(o + [x]) == Headlines(o) + [(x.slug, x.title)]
  {
    assert (o + [x])[..|o|] == o;
  }

  /** The last heading's step is applied to the state the others built. */
  lemma BuildLast(st: TocState, items: seq<TocItem>, asWritten: bool)
    requires TocValid(st) && items != []
    ensures Build(st, items, asWritten).Success? ==> Build(st, items[..|items| - 1], asWritten).Success?
    ensures Build(st, items[..|items| - 1], asWritten).Success? ==>
      Build(st, items, asWritten) == StepItem(Build(st, items[..|items| - 1], asWritten).value, items[|items| - 1], asWritten)
  {
  }

  /** A successful step extends a successful build by one heading. */
  lemma BuildSnoc(st: TocState, items: seq<TocItem>, it: TocItem, asWritten: bool, mid: TocState, next: TocState)
    requires TocValid(st) && Build(st, items, asWritten) == Success(mid)
    requires StepItem(mid, it, asWritten) == Success(next)
    ensures Build(st, items + [it], asWritten) == Success(next)
  {
    assert (items + [it])[..|items|] == items;
    BuildLast(st, items + [it], asWritten);
  }

  /** A successful step appends the heading's entry to the outline, at the
      level of the list it lands in. */
  lemma StepOutline(mid: TocState, it: TocItem, asWritten: bool)
    requires TocValid(mid) && StepItem(mid, it, asWritten).Success?
    ensures var out := StepItem(mid, it, asWritten).value;
      Outline(out.toc, 0) == Outline(mid.toc, 0) + [OutlineItem(it.slug, it.title, out.open - 1)]
  {
    var out := StepItem(mid, it, asWritten).value;
    AppendTopOutline(mid.toc, out.open, it.depth, Entry(it.slug, it.title, []));
  }

  /** The last heading's entry is appended to the top list of the stack the
      others built. */
  lemma BuildLastOutline(st: TocState, items: seq<TocItem>, asWritten: bool)
    requires TocValid(st) && items != [] && Build(st, items, asWritten).Success?
    ensures Build(st, items[..|items| - 1], asWritten).Success?
    ensures var out := Build(st, items, asWritten).value;
      var it := items[|items| - 1];
      Outline(out.toc, 0) == Outline(Build(st, items[..|items| - 1], asWritten).value.toc, 0) + [OutlineItem(it.slug, it.title, out.open - 1)]
  {
    BuildLast(st, items, asWritten);
    StepOutline(Build(st, items[..|items| - 1], asWritten).value, items[|items| - 1], asWritten);
  }

  /** Whatever the depths, a document that builds lists every heading in the
      outline once, in document order, after what was there before. */
  lemma {:induction false} BuildOutline(st: TocState, items: seq<TocItem>, asWritten: bool)
    requires TocValid(st) && Build(st, items, asWritten).Success?
    ensures Headlines(Outline(Build(st, items, asWritten).value.toc, 0)) == Headlines(Outline(st.toc, 0)) + ItemHeadlines(items)
    decreases |items|
  {
    if items != [] {
      var init := items[..|items| - 1];
      var it := items[|items| - 1];
      BuildLastOutline(st, items, asWritten);
      BuildOutline(st, init, asWritten);
      var mid := Build(st, init, asWritten).value;
      var out := Build(st, items, asWritten).value;
      var x := OutlineItem(it.slug, it.title, out.open - 1);
      var om := Outline(mid.toc, 0);
      HeadlinesSnoc(om, x);
      var h := (it.slug, it.title);
      assert ItemHeadlines(items) == ItemHeadlines(init) + [h];
      var a, b := Headlines(Outline(st.toc, 0)), ItemHeadlines(init);
      assert Headlines(Outline(out.toc, 0)) == a + (b + [h]) by {
        ConcatAssoc(a, b, [h]);
      }
    }
  }

  lemma TakeSnoc<T>(s: seq<T>, i: nat)
    requires i < |s|
    ensures s[..i + 1] == s[..i] + [s[i]]
  {
  }

  lemma InitLast<T>(s: seq<T>)
    requires s != []
    ensures s == s[..|s| - 1] + [s[|s| - 1]]
  {
  }

  lemma TakeTake<T>(s: seq<T>, i: nat, j: nat)
    requires i <= j <= |s|
    ensures s[..j][..i] == s[..i]
    ensures i < j ==> s[..j][i] == s[i]
  {
  }

  lemma TakeAll<T>(s: seq<T>)
    ensures s[..|s|] == s
  {
  }

  lemma ConcatAssoc<T>(a: seq<T>, b: seq<T>, c: seq<T>)
    ensures (a + b) + c == a + (b + c)
  {
  }

  /** The nesting level a heading of this depth belongs at. */
  function LevelOf(depth: int): nat {
    if depth >= 3 then depth - 3 else 0
  }

  /** The outline a document should produce: each heading at `depth - 3`. */
  function NestedOutline(items: seq<TocItem>): seq<OutlineItem> {
    if items == [] then []
    else
      var it := items[|items| - 1];
      NestedOutline(items[..|items| - 1]) + [OutlineItem(it.slug, it.title, LevelOf(it.depth))]
  }

  /** Heading depths that are at least 3 and never skip a level going deeper. */
  predicate WellNested(prevLevel: int, depths: seq<int>) {
    && (forall i :: 0 <= i < |depths| ==> 3 <= depths[i])
    && (depths != [] ==> depths[0] <= prevLevel + 1)
    && (forall i :: 0 < i < |depths| ==> depths[i] <= depths[i - 1] + 1)
  }

  function ItemDepths(items: seq<TocItem>): (r: seq<int>)
    ensures |r| == |items| && forall i :: 0 <= i < |items| ==> r[i] == items[i].depth
  {
    seq(|items|, i requires 0 <= i < |items| => items[i].depth)
  }

  /** The stack holds `prevLevel - 2` lists, one per open level 3..prevLevel,
      and the top one already has an entry when `filled`. */
  predicate Settled(s: TocState, filled: bool) {
    && TocValid(s) && s.open > 0 && s.open + 2 == s.prevLevel
    && (filled ==> |ListAt(s.toc, s.open - 1)| > 0)
  }

  /** One corrected step from a settled stack, for a heading at most one level
      deeper (and only when there is an entry to nest under), settles the stack
      at the heading's depth with the entry at level `depth - 3`. */
  lemma LevelStep(mid: TocState, filled: bool, it: TocItem)
    requires Settled(mid, filled)
    requires 3 <= it.depth <= mid.prevLevel + 1 && (filled || it.depth <= mid.prevLevel)
    ensures StepItem(mid, it, false).Success?
    ensures Settled(StepItem(mid, it, false).value, true)
    ensures StepItem(mid, it, false).value.prevLevel == it.depth
    ensures Outline(StepItem(mid, it, false).value.toc, 0) == Outline(mid.toc, 0) + [OutlineItem(it.slug, it.title, LevelOf(it.depth))]
  {
    var e := Entry(it.slug, it.title, []);
    var r := SectionStep(mid, it.depth, e);
    assert r.Success? && r.value.open + 2 == it.depth;
    AppendTopOutline(mid.toc, r.value.open, it.depth, e);
  }

  /** With the corrected step, a well-nested document never fails and every
      heading sits at nesting level `depth - 3` of the table of contents. */
  lemma {:induction false} BuildLevels(st: TocState, filled: bool, items: seq<TocItem>)
    requires Settled(st, filled)
    requires filled || (items != [] ==> items[0].depth <= st.prevLevel)
    requires WellNested(st.prevLevel, ItemDepths(items))
    ensures Build(st, items, false).Success?
    ensures Settled(Build(st, items, false).value, filled || items != [])
    ensures Build(st, items, false).value.prevLevel == if items == [] then st.prevLevel else items[|items| - 1].depth
    ensures Outline(Build(st, items, false).value.toc, 0) == Outline(st.toc, 0) + NestedOutline(items)
    decreases |items|
  {
    if items != [] {
      var init := items[..|items| - 1];
      var it := items[|items| - 1];
      assert WellNested(st.prevLevel, ItemDepths(init)) by {
        assert forall i :: 0 <= i < |init| ==> ItemDepths(init)[i] == ItemDepths(items)[i];
      }
      BuildLevels(st, filled, init);
      var mid := Build(st, init, false).value;
      assert 3 <= it.depth <= mid.prevLevel + 1 by {
        if |init| > 0 {
          assert init[|init| - 1] == items[|items| - 2];
        }
      }
      var out := Build(st, items, false).value;
      assert && Settled(out, true) && out.prevLevel == it.depth
             && Outline(out.toc, 0) == Outline(mid.toc, 0) + [OutlineItem(it.slug, it.title, LevelOf(it.depth))] by {
        LevelStep(mid, filled || init != [], it);
        BuildLast(st, items, false);
      }
      var x := OutlineItem(it.slug, it.title, LevelOf(it.depth));
      assert NestedOutline(items) == NestedOutline(init) + [x];
      var a, b := Outline(st.toc, 0), NestedOutline(init);
      assert Outline(out.toc, 0) == a + (b + [x]) by {
        ConcatAssoc(a, b, [x]);
      }
    }
  }

  // ----- Worked documents ----------------------------------------------------

  /** A two-heading document built step by step from known states. */
  lemma BuildTwo(s0: TocState, i0: TocItem, i1: TocItem, asWritten: bool, s1: TocState, s2: TocState)
    requires TocValid(s0)
    requires StepItem(s0, i0, asWritten) == Success(s1)
    requires StepItem(s1, i1, asWritten) == Success(s2)
    ensures Build(s0, [i0, i1], asWritten) == Success(s2)
  {
    assert Build(s0, [i0], asWritten) == Success(s1) by {
      assert Build(s0, [], asWritten) == Success(s0);
      BuildSnoc(s0, [], i0, asWritten, s0, s1);
      assert [] + [i0] == [i0];
    }
    BuildSnoc(s0, [i0], i1, asWritten, s1, s2);
    assert [i0] + [i1] == [i0, i1];
  }

  /** A three-heading document built step by step from known states. */
  lemma BuildThree(s0: TocState, i0: TocItem, i1: TocItem, i2: TocItem, asWritten: bool,
                   s1: TocState, s2: TocState, s3: TocState)
    requires TocValid(s0)
    requires StepItem(s0, i0, asWritten) == Success(s1)
    requires StepItem(s1, i1, asWritten) == Success(s2)
    requires StepItem(s2, i2, asWritten) == Success(s3)
    ensures Build(s0, [i0, i1, i2], asWritten) == Success(s3)
  {
    BuildTwo(s0, i0, i1, asWritten, s1, s2);
    BuildSnoc(s0, [i0, i1], i2, asWritten, s2, s3);
    assert [i0, i1] + [i2] == [i0, i1, i2];
  }

  /** A four-heading document built step by step from known states. */
  lemma BuildFour(s0: TocState, i0: TocItem, i1: TocItem, i2: TocItem, i3: TocItem, asWritten: bool,
                  s1: TocState, s2: TocState, s3: TocState, s4: TocState)
    requires TocValid(s0)
    requires StepItem(s0, i0, asWritten) == Success(s1)
    requires StepItem(s1, i1, asWritten) == Success(s2)
    requires StepItem(s2, i2, asWritten) == Success(s3)
    requires StepItem(s3, i3, asWritten) == Success(s4)
    ensures Build(s0, [i0, i1, i2, i3], asWritten) == Success(s4)
  {
    BuildThree(s0, i0, i1, i2, asWritten, s1, s2, s3);
    BuildSnoc(s0, [i0, i1, i2], i3, asWritten, s3, s4);
    assert [i0, i1, i2] + [i3] == [i0, i1, i2, i3];
  }

  /** A five-heading document built step by step from known states. */
  lemma BuildFive(s0: TocState, i0: TocItem, i1: TocItem, i2: TocItem, i3: TocItem, i4: TocItem, asWritten: bool,
                  s1: TocState, s2: TocState, s3: TocState, s4: TocState, s5: TocState)
    requires TocValid(s0)
    requires StepItem(s0, i0, asWritten) == Success(s1)
    requires StepItem(s1, i1, asWritten) == Success(s2)
    requires StepItem(s2, i2, asWritten) == Success(s3)
    requires StepItem(s3, i3, asWritten) == Success(s4)
    requires StepItem(s4, i4, asWritten) == Success(s5)
    ensures Build(s0, [i0, i1, i2, i3, i4], asWritten) == Success(s5)
  {
    BuildFour(s0, i0, i1, i2, i3, asWritten, s1, s2, s3, s4);
    BuildSnoc(s0, [i0, i1, i2, i3], i4, asWritten, s4, s5);
    assert [i0, i1, i2, i3] + [i4] == [i0, i1, i2, i3, i4];
  }

  /** On a settled stack, the as-written step for a heading that climbs two
      or more levels closes only one list: it succeeds, but the entry lands at
      level `prevLevel - 4`, deeper than the `depth - 3` it belongs at. */
  lemma AsWrittenMisplaces(st: TocState, filled: bool, it: TocItem)
    requires Settled(st, filled) && 3 <= it.depth < st.prevLevel - 1
    ensures StepItem(st, it, true).Success?
    ensures Outline(StepItem(st, it, true).value.toc, 0) == Outline(st.toc, 0) + [OutlineItem(it.slug, it.title, st.prevLevel - 4)]
    ensures st.prevLevel - 4 > LevelOf(it.depth)
  {
    var e := Entry(it.slug, it.title, []);
    var r := SectionStepAsWritten(st, it.depth, e);
    assert r.Success? && r.value.open == st.open - 1;
    AppendTopOutline(st.toc, r.value.open, it.depth, e);
  }

  /** The first heading opens the table of contents. */
  lemma OpeningStep(a: string, asWritten: bool)
    ensures StepItem(TocState([], 1, 3), TocItem(3, a, a), asWritten) == Success(TocState([Entry(a, a, [])], 1, 3))
  {
    assert AppendAt([], 0, Entry(a, a, [])) == [Entry(a, a, [])];
  }

  lemma DeeperStep(a: string, b: string, asWritten: bool)
    ensures StepItem(TocState([Entry(a, a, [])], 1, 3), TocItem(4, b, b), asWritten)
         == Success(TocState([Entry(a, a, [Entry(b, b, [])])], 2, 4))
  {
    var ea, eb := Entry(a, a, []), Entry(b, b, []);
    assert ListAt([ea], 0) == [ea];
    assert [ea][..0] == [];
    assert AppendAt(ea.sections, 0, eb) == [eb];
    assert AppendAt([ea], 1, eb) == [Entry(a, a, [eb])];
  }

  lemma DeepestStep(a: string, b: string, c: string, asWritten: bool)
    ensures StepItem(TocState([Entry(a, a, [Entry(b, b, [])])], 2, 4), TocItem(5, c, c), asWritten)
         == Success(TocState([Entry(a, a, [Entry(b, b, [Entry(c, c, [])])])], 3, 5))
  {
    var eb, ec := Entry(b, b, []), Entry(c, c, []);
    var toc := [Entry(a, a, [eb])];
    assert ListAt(toc, 1) == [eb];
    assert toc[..0] == [] && [eb][..0] == [];
    assert AppendAt(eb.sections, 0, ec) == [ec];
    assert AppendAt([eb], 1, ec) == [Entry(b, b, [ec])];
    assert AppendAt(toc, 2, ec) == [Entry(a, a, [Entry(b, b, [ec])])];
  }

  /** The climb from 5 to 3, as written: one list closed, `d` nested under `a`. */
  lemma ClimbStepAsWritten(a: string, b: string, c: string, d: string)
    ensures Reaches([Entry(b, b, [Entry(c, c, [])])], 1)
    ensures StepItem(TocState([Entry(a, a, [Entry(b, b, [Entry(c, c, [])])])], 3, 5), TocItem(3, d, d), true)
         == Success(TocState([Entry(a, a, [Entry(b, b, [Entry(c, c, [])]), Entry(d, d, [])])], 2, 3))
  {
    var ebc, ed := Entry(b, b, [Entry(c, c, [])]), Entry(d, d, []);
    var toc := [Entry(a, a, [ebc])];
    assert toc[..0] == [];
    assert AppendAt([ebc], 0, ed) == [ebc, ed];
    assert AppendAt(toc, 1, ed) == [Entry(a, a, [ebc, ed])];
  }

  /** The climb from 5 to 3, corrected: two lists closed, `d` beside `a`. */
  lemma ClimbStep(a: string, b: string, c: string, d: string)
    ensures Reaches([Entry(b, b, [Entry(c, c, [])])], 1)
    ensures StepItem(TocState([Entry(a, a, [Entry(b, b, [Entry(c, c, [])])])], 3, 5), TocItem(3, d, d), false)
         == Success(TocState([Entry(a, a, [Entry(b, b, [Entry(c, c, [])])]), Entry(d, d, [])], 1, 3))
  {
    var ea := Entry(a, a, [Entry(b, b, [Entry(c, c, [])])]);
    var ed := Entry(d, d, []);
    assert AppendAt([ea], 0, ed) == [ea, ed];
  }

  /** Headings of depth 3, 4, 5, 3: with the as-written step the second
      depth-3 heading is nested under the first instead of beside it. */
  lemma AsWrittenMisnests(a: string, b: string, c: string, d: string)
    ensures var items := [TocItem(3, a, a), TocItem(4, b, b), TocItem(5, c, c), TocItem(3, d, d)];
      && WellNested(3, [3, 4, 5, 3])
      && Build(TocState([], 1, 3), items, true)
         == Success(TocState([Entry(a, a, [Entry(b, b, [Entry(c, c, [])]), Entry(d, d, [])])], 2, 3))
  {
    OpeningStep(a, true);
    DeeperStep(a, b, true);
    DeepestStep(a, b, c, true);
    ClimbStepAsWritten(a, b, c, d);
    BuildFour(TocState([], 1, 3), TocItem(3, a, a), TocItem(4, b, b), TocItem(5, c, c), TocItem(3, d, d),
      true, TocState([Entry(a, a, [])], 1, 3),
      TocState([Entry(a, a, [Entry(b, b, [])])], 2, 4),
      TocState([Entry(a, a, [Entry(b, b, [Entry(c, c, [])])])], 3, 5),
      TocState([Entry(a, a, [Entry(b, b, [Entry(c, c, [])]), Entry(d, d, [])])], 2, 3));
  }

  /** The same document with the corrected step: the second depth-3 heading
      is a sibling of the first. */
  lemma CorrectedNests(a: string, b: string, c: string, d: string)
    ensures var items := [TocItem(3, a, a), TocItem(4, b, b), TocItem(5, c, c), TocItem(3, d, d)];
      Build(TocState([], 1, 3), items, false)
      == Success(TocState([Entry(a, a, [Entry(b, b, [Entry(c, c, [])])]), Entry(d, d, [])], 1, 3))
  {
    OpeningStep(a, false);
    DeeperStep(a, b, false);
    DeepestStep(a, b, c, false);
    ClimbStep(a, b, c, d);
    BuildFour(TocState([], 1, 3), TocItem(3, a, a), TocItem(4, b, b), TocItem(5, c, c), TocItem(3, d, d),
      false, TocState([Entry(a, a, [])], 1, 3),
      TocState([Entry(a, a, [Entry(b, b, [])])], 2, 4),
      TocState([Entry(a, a, [Entry(b, b, [Entry(c, c, [])])])], 3, 5),
      TocState([Entry(a, a, [Entry(b, b, [Entry(c, c, [])])]), Entry(d, d, [])], 1, 3));
  }

  /** The second heading of equal depth joins the first's list. */
  lemma SiblingStep(a: string, b: string, c: string, asWritten: bool)
    ensures StepItem(TocState([Entry(a, a, [Entry(b, b, [])])], 2, 4), TocItem(4, c, c), asWritten)
         == Success(TocState([Entry(a, a, [Entry(b, b, []), Entry(c, c, [])])], 2, 4))
  {
    var eb, ec := Entry(b, b, []), Entry(c, c, []);
    var toc := [Entry(a, a, [eb])];
    assert ListAt(toc, 1) == [eb];
    assert toc[..0] == [];
    assert AppendAt([eb], 0, ec) == [eb, ec];
    assert AppendAt(toc, 1, ec) == [Entry(a, a, [eb, ec])];
  }

  /** The climb from 4 to 3 closes one list either way: `d` beside `a`. */
  lemma ClimbOneStep(a: string, b: string, c: string, d: string, asWritten: bool)
    ensures StepItem(TocState([Entry(a, a, [Entry(b, b, []), Entry(c, c, [])])], 2, 4), TocItem(3, d, d), asWritten)
         == Success(TocState([Entry(a, a, [Entry(b, b, []), Entry(c, c, [])]), Entry(d, d, [])], 1, 3))
  {
    var ea := Entry(a, a, [Entry(b, b, []), Entry(c, c, [])]);
    assert AppendAt([ea], 0, Entry(d, d, [])) == [ea, Entry(d, d, [])];
  }

  /** A depth-5 heading right after a depth-3 one pushes a single list, so
      it lands one level below, where a depth-4 heading would. */
  lemma SkipStep(ea: Entry, d: string, e: string, asWritten: bool)
    ensures StepItem(TocState([ea, Entry(d, d, [])], 1, 3), TocItem(5, e, e), asWritten)
         == Success(TocState([ea, Entry(d, d, [Entry(e, e, [])])], 2, 5))
  {
    var ed, ee := Entry(d, d, []), Entry(e, e, []);
    var toc := [ea, ed];
    assert ListAt(toc, 0) == toc;
    assert toc[..1] == [ea];
    assert AppendAt(ed.sections, 0, ee) == [ee];
    assert AppendAt(toc, 1, ee) == [ea, Entry(d, d, [ee])];
  }

  /** Headings of depth 3, 4, 4, 3, 5, with either step: equal depths share a
      list, so the first depth-3 entry gets two children; the depth-5
      heading becomes a child, not a grandchild, of the second. */
  lemma SkippedLevel(a: string, b: string, c: string, d: string, e: string, asWritten: bool)
    ensures var items := [TocItem(3, a, a), TocItem(4, b, b), TocItem(4, c, c), TocItem(3, d, d), TocItem(5, e, e)];
      var first := Entry(a, a, [Entry(b, b, []), Entry(c, c, [])]);
      && !WellNested(3, [3, 4, 4, 3, 5])
      && Build(TocState([], 1, 3), items, asWritten)
         == Success(TocState([first, Entry(d, d, [Entry(e, e, [])])], 2, 5))
  {
    var first := Entry(a, a, [Entry(b, b, []), Entry(c, c, [])]);
    var s0, s1 := TocState([], 1, 3), TocState([Entry(a, a, [])], 1, 3);
    var s2 := TocState([Entry(a, a, [Entry(b, b, [])])], 2, 4);
    var s3 := TocState([first], 2, 4);
    var s4 := TocState([first, Entry(d, d, [])], 1, 3);
    var i0, i1, i2, i3, i4 := TocItem(3, a, a), TocItem(4, b, b), TocItem(4, c, c), TocItem(3, d, d), TocItem(5, e, e);
    OpeningStep(a, asWritten);
    DeeperStep(a, b, asWritten);
    SiblingStep(a, b, c, asWritten);
    ClimbOneStep(a, b, c, d, asWritten);
    SkipStep(first, d, e, asWritten);
    BuildFive(s0, i0, i1, i2, i3, i4, asWritten, s1, s2, s3, s4, TocState([first, Entry(d, d, [Entry(e, e, [])])], 2, 5));
    assert [3, 4, 4, 3, 5][4] > [3, 4, 4, 3, 5][3] + 1;
  }

  // ----- The visitor -----------------------------------------------------------

  /** What a visit changes in the `data` bag and the session: the slug stack,
      the section stack and the slugs the session has seen. */
  datatype DocState = DocState(slugs: seq<string>, st: TocState, seen: set<string>)

  /** A result together with the state it leaves behind. */
  datatype Outcome<T> = Outcome(result: Result<T, HeadingError>, after: DocState)

  /** The section stack after a failed step: the tree and `prev_level` keep
      their values, and only a stack popped empty changes height. */
  function Stuck(st: TocState, err: HeadingError): (r: TocState)
    ensures r.toc == st.toc && r.prevLevel == st.prevLevel
    ensures TocValid(st) ==> TocValid(r)
    ensures r.open == 0 <==> st.open == 0 || err == EmptySectionStack
  {
    st.(open := if err == EmptySectionStack then 0 else st.open)
  }

  /** One heading's visit: pop the slug stack, mint the slug from the seed,
      push and record it, and take the section step. */
  function VisitHeading(slugOf: string -> string, sectionTitle: string, s: DocState, depth: int, text: string, asWritten: bool): (v: Outcome<string>)
    requires TocValid(s.st)
    ensures TocValid(v.after.st)
    ensures v.result.Success? ==> v.result.value !in s.seen && v.after.seen == s.seen + {v.result.value}
    ensures v.result.Failure? ==> v.after.st.toc == s.st.toc && v.after.st.prevLevel == s.st.prevLevel
  {
    var popped := PopSlugs(s.slugs, s.st.prevLevel, depth);
    var slug := slugOf(Seed(sectionTitle, popped, depth, text));
    if slug in s.seen then Outcome(Failure(SessionError(DuplicateSlug(slug))), s.(slugs := popped))
    else
      var pushed := DocState(popped + [slug], s.st, s.seen + {slug});
      match StepItem(s.st, TocItem(depth, slug, text), asWritten)
      case Success(next) => Outcome(Success(slug), pushed.(st := next))
      case Failure(err) => Outcome(Failure(err), pushed.(st := Stuck(s.st, err)))
  }

  /** A slug the session has seen stops the visit with only the slug-stack
      pops done. Otherwise the slug is pushed and recorded whatever follows,
      and the visit succeeds exactly when the section step does; a failed
      step is one of the two TypeErrors and leaves the tree as it was. */
  lemma VisitHeadingCases(slugOf: string -> string, sectionTitle: string, s: DocState, depth: int, text: string, asWritten: bool)
    requires TocValid(s.st)
    ensures var v := VisitHeading(slugOf, sectionTitle, s, depth, text, asWritten);
      var popped := PopSlugs(s.slugs, s.st.prevLevel, depth);
      var slug := slugOf(Seed(sectionTitle, popped, depth, text));
      var step := StepItem(s.st, TocItem(depth, slug, text), asWritten);
      if slug in s.seen then
        v == Outcome(Failure(SessionError(DuplicateSlug(slug))), s.(slugs := popped))
      else
        && v.after.slugs == popped + [slug] && v.after.seen == s.seen + {slug}
        && (v.result.Success? <==> step.Success?)
        && (v.result.Success? ==> v.result.value == slug && step == Success(v.after.st))
        && (v.result.Failure? ==> v.result.error in {MissingParentEntry, EmptySectionStack} && v.after.st == Stuck(s.st, v.result.error))
  {
  }

  /** The visits of a whole document in order, stopping at the first failure:
      the slugs minted, or the first error, and the state left behind. */
  function VisitAll(slugOf: string -> string, sectionTitle: string, s: DocState, nodes: seq<HeadingNode>, asWritten: bool): (r: Outcome<seq<string>>)
    requires TocValid(s.st)
    ensures TocValid(r.after.st)
    ensures r.result.Success? ==> |r.result.value| == |nodes|
    ensures nodes == [] ==> r == Outcome(Success([]), s)
    decreases |nodes|
  {
    if nodes == [] then Outcome(Success([]), s)
    else
      var before := VisitAll(slugOf, sectionTitle, s, nodes[..|nodes| - 1], asWritten);
      if before.result.Failure? then before
      else
        var last := nodes[|nodes| - 1];
        var v := VisitHeading(slugOf, sectionTitle, before.after, last.depth, last.text, asWritten);
        Outcome(if v.result.Success? then Success(before.result.value + [v.result.value]) else Failure(v.result.error), v.after)
  }

  /** The last heading of a document is visited from the state the others
      left, when they succeeded. */
  lemma VisitAllLast(slugOf: string -> string, sectionTitle: string, s: DocState, nodes: seq<HeadingNode>, asWritten: bool)
    requires TocValid(s.st) && nodes != []
    ensures var before := VisitAll(slugOf, sectionTitle, s, nodes[..|nodes| - 1], asWritten);
      var v := VisitHeading(slugOf, sectionTitle, before.after, nodes[|nodes| - 1].depth, nodes[|nodes| - 1].text, asWritten);
      VisitAll(slugOf, sectionTitle, s, nodes, asWritten)
      == if before.result.Failure? then before
         else if v.result.Success? then Outcome(Success(before.result.value + [v.result.value]), v.after)
         else Outcome(Failure(v.result.error), v.after)
  {
  }

  /** The walk extended by the next heading: its visit starts from the state
      the earlier headings left. */
  lemma VisitAllNext(slugOf: string -> string, sectionTitle: string, s: DocState, nodes: seq<HeadingNode>, asWritten: bool,
                  minted: seq<string>, mid: DocState)
    requires TocValid(s.st) && |minted| < |nodes|
    requires VisitAll(slugOf, sectionTitle, s, nodes[..|minted|], asWritten) == Outcome(Success(minted), mid)
    ensures var node := nodes[|minted|];
      var v := VisitHeading(slugOf, sectionTitle, mid, node.depth, node.text, asWritten);
      VisitAll(slugOf, sectionTitle, s, nodes[..|minted| + 1], asWritten)
      == Outcome(if v.result.Success? then Success(minted + [v.result.value]) else Failure(v.result.error), v.after)
  {
    var i := |minted|;
    TakeTake(nodes, i, i + 1);
  }

  /** Once a heading fails, the headings after it are never visited: the walk
      of the whole document is the walk that stopped. */
  lemma {:induction false} VisitStops(slugOf: string -> string, sectionTitle: string, s: DocState, nodes: seq<HeadingNode>, asWritten: bool, k: nat)
    requires TocValid(s.st) && k <= |nodes|
    requires VisitAll(slugOf, sectionTitle, s, nodes[..k], asWritten).result.Failure?
    ensures VisitAll(slugOf, sectionTitle, s, nodes, asWritten) == VisitAll(slugOf, sectionTitle, s, nodes[..k], asWritten)
    decreases |nodes| - k
  {
    if k < |nodes| {
      TakeTake(nodes, k, k + 1);
      assert VisitAll(slugOf, sectionTitle, s, nodes[..k + 1], asWritten) == VisitAll(slugOf, sectionTitle, s, nodes[..k], asWritten);
      VisitStops(slugOf, sectionTitle, s, nodes, asWritten, k + 1);
    } else {
      TakeAll(nodes);
    }
  }

  /** The session's seen set is the initial one plus the minted slugs, which
      are pairwise distinct and none of which was seen at the start. */
  ghost predicate Minted(seen0: set<string>, minted: seq<string>, seen: set<string>)
  {
    && seen == seen0 + (set s | s in minted)
    && (forall k :: 0 <= k < |minted| ==> minted[k] !in seen0)
    && (forall k, l :: 0 <= k < l < |minted| ==> minted[k] != minted[l])
  }

  /** The section-stack input of each visited heading, given the slugs minted. */
  function Items(nodes: seq<HeadingNode>, slugs: seq<string>): (items: seq<TocItem>)
    requires |slugs| == |nodes|
    ensures |items| == |nodes|
    ensures forall i :: 0 <= i < |nodes| ==> items[i] == TocItem(nodes[i].depth, slugs[i], nodes[i].text)
  {
    seq(|nodes|, i requires 0 <= i < |nodes| => TocItem(nodes[i].depth, slugs[i], nodes[i].text))
  }

  lemma ItemsSnoc(prefix: seq<HeadingNode>, node: HeadingNode, minted: seq<string>, slug: string)
    requires |minted| == |prefix|
    ensures Items(prefix + [node], minted + [slug]) == Items(prefix, minted) + [TocItem(node.depth, slug, node.text)]
  {
  }

  /** One more heading whose slug is new and whose section step succeeds
      extends both the build and the minted slugs. */
  lemma BuildsNext(st0: TocState, seen0: set<string>, init: seq<HeadingNode>, last: HeadingNode, minted: seq<string>,
                   mid: DocState, slug: string, next: DocState, asWritten: bool)
    requires TocValid(st0) && |minted| == |init|
    requires Build(st0, Items(init, minted), asWritten) == Success(mid.st) && Minted(seen0, minted, mid.seen)
    requires StepItem(mid.st, TocItem(last.depth, slug, last.text), asWritten) == Success(next.st)
    requires slug !in mid.seen && next.seen == mid.seen + {slug}
    ensures Build(st0, Items(init + [last], minted + [slug]), asWritten) == Success(next.st)
    ensures Minted(seen0, minted + [slug], next.seen)
  {
    var it := TocItem(last.depth, slug, last.text);
    ItemsSnoc(init, last, minted, slug);
    BuildSnoc(st0, Items(init, minted), it, asWritten, mid.st, next.st);
  }

  /** A document whose walk succeeds built its table of contents by the
      section steps of its headings, each with the slug it was given, and
      every slug was new to the session and differs from the others. */
  lemma {:induction false} VisitAllBuilds(slugOf: string -> string, sectionTitle: string, s: DocState, nodes: seq<HeadingNode>, asWritten: bool)
    requires TocValid(s.st)
    requires VisitAll(slugOf, sectionTitle, s, nodes, asWritten).result.Success?
    ensures var r := VisitAll(slugOf, sectionTitle, s, nodes, asWritten);
      && Build(s.st, Items(nodes, r.result.value), asWritten) == Success(r.after.st)
      && Minted(s.seen, r.result.value, r.after.seen)
    decreases |nodes|
  {
    if nodes != [] {
      var init, last := nodes[..|nodes| - 1], nodes[|nodes| - 1];
      var before := VisitAll(slugOf, sectionTitle, s, init, asWritten);
      VisitAllBuilds(slugOf, sectionTitle, s, init, asWritten);
      var v := VisitHeading(slugOf, sectionTitle, before.after, last.depth, last.text, asWritten);
      VisitAllLast(slugOf, sectionTitle, s, nodes, asWritten);
      VisitHeadingCases(slugOf, sectionTitle, before.after, last.depth, last.text, asWritten);
      InitLast(nodes);
      BuildsNext(s.st, s.seen, init, last, before.result.value, before.after, v.result.value, v.after, asWritten);
    }
  }

  /** The walk `r` stopped at `node`: the headings before it succeeded, and
      its visit failed with the error and the state of `r`. */
  predicate FailsAt(slugOf: string -> string, sectionTitle: string, s: DocState, prefix: seq<HeadingNode>, node: HeadingNode,
                    asWritten: bool, r: Outcome<seq<string>>)
    requires TocValid(s.st)
  {
    var before := VisitAll(slugOf, sectionTitle, s, prefix, asWritten);
    var v := VisitHeading(slugOf, sectionTitle, before.after, node.depth, node.text, asWritten);
    before.result.Success? && v.result.Failure? && r == Outcome(Failure(v.result.error), v.after)
  }

  /** A walk that fails stops at one heading: every heading before it was
      visited successfully, and that heading's visit gives the error and the
      final state. */
  lemma {:induction false} VisitAllFails(slugOf: string -> string, sectionTitle: string, s: DocState, nodes: seq<HeadingNode>, asWritten: bool)
    requires TocValid(s.st)
    requires VisitAll(slugOf, sectionTitle, s, nodes, asWritten).result.Failure?
    ensures nodes != []
    ensures exists i :: 0 <= i < |nodes| && FailsAt(slugOf, sectionTitle, s, nodes[..i], nodes[i], asWritten, VisitAll(slugOf, sectionTitle, s, nodes, asWritten))
    decreases |nodes|
  {
    var init := nodes[..|nodes| - 1];
    var r := VisitAll(slugOf, sectionTitle, s, nodes, asWritten);
    if VisitAll(slugOf, sectionTitle, s, init, asWritten).result.Failure? {
      assert VisitAll(slugOf, sectionTitle, s, init, asWritten) == r by {
        VisitAllLast(slugOf, sectionTitle, s, nodes, asWritten);
      }
      VisitAllFails(slugOf, sectionTitle, s, init, asWritten);
      var i :| 0 <= i < |init| && FailsAt(slugOf, sectionTitle, s, init[..i], init[i], asWritten, r);
      var prefix, node := init[..i], init[i];
      assert prefix == nodes[..i] && node == nodes[i] by {
        TakeTake(nodes, i, |nodes| - 1);
      }
    } else {
      assert FailsAt(slugOf, sectionTitle, s, init, nodes[|nodes| - 1], asWritten, r) by {
        VisitAllLast(slugOf, sectionTitle, s, nodes, asWritten);
      }
    }
  }

  /** The first `k` headings of a document that succeeds succeed on their own,
      with the first `k` slugs. */
  lemma {:induction false} VisitPrefix(slugOf: string -> string, sectionTitle: string, s: DocState, nodes: seq<HeadingNode>, asWritten: bool, k: nat)
    requires TocValid(s.st) && k <= |nodes|
    requires VisitAll(slugOf, sectionTitle, s, nodes, asWritten).result.Success?
    ensures VisitAll(slugOf, sectionTitle, s, nodes[..k], asWritten).result.Success?
    ensures VisitAll(slugOf, sectionTitle, s, nodes[..k], asWritten).result.value
         == VisitAll(slugOf, sectionTitle, s, nodes, asWritten).result.value[..k]
    decreases |nodes|
  {
    if k < |nodes| {
      var init := nodes[..|nodes| - 1];
      var whole, prev := VisitAll(slugOf, sectionTitle, s, nodes, asWritten), VisitAll(slugOf, sectionTitle, s, init, asWritten);
      assert prev.result.Success? && whole.result.value[..|init|] == prev.result.value by {
        VisitAllLast(slugOf, sectionTitle, s, nodes, asWritten);
      }
      VisitPrefix(slugOf, sectionTitle, s, init, asWritten, k);
      var front := init[..k];
      assert front == nodes[..k] by {
        TakeTake(nodes, k, |nodes| - 1);
      }
      TakeTake(whole.result.value, k, |init|);
    } else {
      TakeAll(nodes);
    }
  }

  /** The slug of heading `i` of a document that succeeds: the session's slug
      of the seed built on the slug stack the earlier headings left, popped
      for this heading; it is new at that point and tops the stack after. */
  lemma HeadingSlug(slugOf: string -> string, sectionTitle: string, s: DocState, nodes: seq<HeadingNode>, asWritten: bool, i: nat)
    requires TocValid(s.st) && i < |nodes|
    requires VisitAll(slugOf, sectionTitle, s, nodes, asWritten).result.Success?
    ensures var before := VisitAll(slugOf, sectionTitle, s, nodes[..i], asWritten).after;
      var popped := PopSlugs(before.slugs, before.st.prevLevel, nodes[i].depth);
      var slug := VisitAll(slugOf, sectionTitle, s, nodes, asWritten).result.value[i];
      && slug == slugOf(Seed(sectionTitle, popped, nodes[i].depth, nodes[i].text))
      && slug !in before.seen
      && VisitAll(slugOf, sectionTitle, s, nodes[..i + 1], asWritten).after.slugs == popped + [slug]
  {
    VisitOne(slugOf, sectionTitle, s, nodes, asWritten, i);
    var before := VisitAll(slugOf, sectionTitle, s, nodes[..i], asWritten);
    VisitHeadingCases(slugOf, sectionTitle, before.after, nodes[i].depth, nodes[i].text, asWritten);
  }

  /** Heading `i` of a document that succeeds is visited from the state the
      headings before it left, and gives the `i`-th slug. */
  lemma VisitOne(slugOf: string -> string, sectionTitle: string, s: DocState, nodes: seq<HeadingNode>, asWritten: bool, i: nat)
    requires TocValid(s.st) && i < |nodes|
    requires VisitAll(slugOf, sectionTitle, s, nodes, asWritten).result.Success?
    ensures var before := VisitAll(slugOf, sectionTitle, s, nodes[..i], asWritten);
      var v := VisitHeading(slugOf, sectionTitle, before.after, nodes[i].depth, nodes[i].text, asWritten);
      && before.result.Success?
      && v.result == Success(VisitAll(slugOf, sectionTitle, s, nodes, asWritten).result.value[i])
      && VisitAll(slugOf, sectionTitle, s, nodes[..i + 1], asWritten).after == v.after
  {
    var whole := VisitAll(slugOf, sectionTitle, s, nodes, asWritten);
    var upto := nodes[..i + 1];
    var part := VisitAll(slugOf, sectionTitle, s, upto, asWritten);
    assert part.result.Success? && part.result.value == whole.result.value[..i + 1] by {
      VisitPrefix(slugOf, sectionTitle, s, nodes, asWritten, i + 1);
    }
    var front, node := upto[..i], upto[i];
    assert front == nodes[..i] && node == nodes[i] by {
      TakeTake(nodes, i, i + 1);
    }
    var before := VisitAll(slugOf, sectionTitle, s, front, asWritten);
    var v := VisitHeading(slugOf, sectionTitle, before.after, node.depth, node.text, asWritten);
    assert before.result.Success? && v.result.Success? && part == Outcome(Success(before.result.value + [v.result.value]), v.after) by {
      VisitAllLast(slugOf, sectionTitle, s, upto, asWritten);
    }
    assert whole.result.value[i] == v.result.value by {
      assert |before.result.value| == i;
      assert part.result.value[i] == whole.result.value[i];
    }
  }

  /** The depths of the headings, as `ItemDepths` gives those of the items. */
  function NodeDepths(nodes: seq<HeadingNode>): (r: seq<int>)
    ensures |r| == |nodes| && forall i :: 0 <= i < |nodes| ==> r[i] == nodes[i].depth
  {
    seq(|nodes|, i requires 0 <= i < |nodes| => nodes[i].depth)
  }

  /** The section-stack items of a walk have the depths of its headings. */
  lemma ItemsKeepDepths(nodes: seq<HeadingNode>, slugs: seq<string>)
    requires |slugs| == |nodes|
    ensures ItemDepths(Items(nodes, slugs)) == NodeDepths(nodes)
  {
  }

  /** With the corrected section step, a well-nested document visited from a
      settled stack can fail only on a slug the session has already seen: the
      section stack never throws, and it stays settled at the last depth. */
  lemma {:induction false} NestedVisitsFailOnlyOnSlugs(slugOf: string -> string, sectionTitle: string, s: DocState, nodes: seq<HeadingNode>, filled: bool)
    requires Settled(s.st, filled)
    requires filled || (nodes != [] ==> nodes[0].depth <= s.st.prevLevel)
    requires WellNested(s.st.prevLevel, NodeDepths(nodes))
    ensures var r := VisitAll(slugOf, sectionTitle, s, nodes, false);
      && (r.result.Failure? ==> r.result.error.SessionError?)
      && (r.result.Success? ==> Settled(r.after.st, filled || nodes != []))
      && (r.result.Success? && nodes != [] ==> r.after.st.prevLevel == nodes[|nodes| - 1].depth)
    decreases |nodes|
  {
    if nodes != [] {
      var init, last := nodes[..|nodes| - 1], nodes[|nodes| - 1];
      assert WellNested(s.st.prevLevel, NodeDepths(init)) by {
        assert forall i :: 0 <= i < |init| ==> NodeDepths(init)[i] == NodeDepths(nodes)[i];
      }
      NestedVisitsFailOnlyOnSlugs(slugOf, sectionTitle, s, init, filled);
      VisitAllLast(slugOf, sectionTitle, s, nodes, false);
      var before := VisitAll(slugOf, sectionTitle, s, init, false);
      if before.result.Success? {
        var mid := before.after;
        assert 3 <= last.depth <= mid.st.prevLevel + 1 by {
          assert NodeDepths(nodes)[|nodes| - 1] == last.depth;
          if |init| > 0 {
            assert init[|init| - 1].depth == NodeDepths(nodes)[|nodes| - 2];
          }
        }
        VisitHeadingCases(slugOf, sectionTitle, mid, last.depth, last.text, false);
        var slug := slugOf(Seed(sectionTitle, PopSlugs(mid.slugs, mid.st.prevLevel, last.depth), last.depth, last.text));
        if slug !in mid.seen {
          LevelStep(mid.st, filled || init != [], TocItem(last.depth, slug, last.text));
        }
      }
    }
  }

  /** The `data` bag of the file being processed, and the shared session. */
  class HeadingState {
    const sectionTitle: string
    const dir: string
    const session: SlugSession
    /** whether the section stack pops one list per shallower heading, as
        headings.ts does, or one per level climbed */
    const asWritten: bool
    var prevLevel: int
    var slugs: seq<string>
    /** `section_stack[0]`, with everything nested below it */
    var toc: seq<Entry>
    /** `section_stack.length` */
    var open: nat

    ghost predicate Valid()
      reads this
    {
      && (open == 0 || Reaches(toc, open - 1))
      && session.preserveUnicode == HeadingPreserveUnicode
      && session.separator == HeadingSeparator
    }

    function Toc(): TocState
      reads this
    {
      TocState(toc, open, prevLevel)
    }

    function State(): DocState
      reads this, session
    {
      DocState(slugs, Toc(), session.seen)
    }

    /** A fresh bag: no slugs, one empty section list on the stack. */
    constructor (sectionTitle: string, dir: string, prevLevel: int, session: SlugSession, asWritten: bool)
      requires session.preserveUnicode == HeadingPreserveUnicode && session.separator == HeadingSeparator
      ensures Valid()
      ensures this.sectionTitle == sectionTitle && this.dir == dir && this.session == session && this.asWritten == asWritten
      ensures this.prevLevel == prevLevel && slugs == [] && toc == [] && open == 1
    {
      this.sectionTitle := sectionTitle;
      this.dir := dir;
      this.session := session;
      this.asWritten := asWritten;
      this.prevLevel := prevLevel;
      slugs := [];
      toc := [];
      open := 1;
    }

    /** The slug half of a visit: pop the slug stack, mint the slug from the
        seed, and push it when it is new. */
    method MintSlug(node: HeadingNode) returns (made: Result<string, HeadingError>)
      requires Valid()
      modifies this`slugs, session
      ensures Valid()
      ensures var popped := PopSlugs(old(slugs), prevLevel, node.depth);
        var slug := session.SlugOf(Seed(sectionTitle, popped, node.depth, node.text));
        if slug in old(session.seen) then
          made == Failure(SessionError(DuplicateSlug(slug))) && slugs == popped && session.seen == old(session.seen)
        else
          made == Success(slug) && slugs == popped + [slug] && session.seen == old(session.seen) + {slug}
    {
      var depth := node.depth;
      var stack := slugs;
      if depth < prevLevel && |stack| != 0 {
        var n := prevLevel - depth + 1;
        var i := 0;
        while i < n
          invariant 0 <= i <= n
          invariant stack == slugs[..if |slugs| >= i then |slugs| - i else 0]
        {
          if |stack| > 0 {
            stack := stack[..|stack| - 1];
          }
          i := i + 1;
        }
      }
      slugs := stack;
      var minted := session.Slug(Seed(sectionTitle, stack, depth, node.text));
      if minted.Failure? {
        return Failure(SessionError(minted.error));
      }
      slugs := slugs + [minted.value];
      made := Success(minted.value);
    }

    /** The section half of a visit: move the section stack to the heading's
        level, append its entry to the top list and inject the anchors. */
    method PlaceEntry(node: HeadingNode, slug: string) returns (r: Result<string, HeadingError>)
      requires Valid()
      modifies this`toc, this`open, this`prevLevel, node
      ensures Valid()
      ensures var step := StepItem(old(Toc()), TocItem(node.depth, slug, node.text), asWritten);
        if step.Success? then
          && r == Success(slug) && Toc() == step.value
          && node.hChildren == AnchorChildren(dir, slug, node.depth, node.rendered)
        else
          && r == Failure(step.error) && Toc() == Stuck(old(Toc()), step.error)
          && node.hChildren == old(node.hChildren)
    {
      var depth := node.depth;
      var entry := Entry(slug, node.text, []);
      ghost var step := StepItem(Toc(), TocItem(depth, slug, node.text), asWritten);
      var height := open;
      if depth > prevLevel {
        if height == 0 || |ListAt(toc, height - 1)| == 0 {
          assert step == Failure(MissingParentEntry);
          return Failure(MissingParentEntry);
        }
        ReachesNext(toc, height - 1);
        height := height + 1;
      } else if depth < prevLevel {
        height := Drop(height, if asWritten then 1 else prevLevel - depth);
      }
      if height == 0 {
        assert step == Failure(EmptySectionStack);
        open := 0;
        return Failure(EmptySectionStack);
      }
      ReachesLower(toc, if depth > prevLevel then height - 1 else open - 1, height - 1);
      var next := AppendTop(toc, height, depth, entry);
      assert step.Success? && step.value.open == height;
      assert Reaches(next.toc, height - 1);
      toc, open, prevLevel := next.toc, height, depth;
      node.hChildren := [OffsetAnchor(slug, depth), LinkAnchor(dir, slug)] + node.rendered;
      r := Success(slug);
    }

    /** The visitor callback for one heading: the state it leaves and its
        result are those of `VisitHeading`, and the anchors are injected
        exactly when it succeeds. */
    method Visit(node: HeadingNode) returns (r: Result<string, HeadingError>)
      requires Valid()
      modifies this, session, node
      ensures Valid()
      ensures VisitHeading(session.SlugOf, sectionTitle, old(State()), node.depth, node.text, asWritten) == Outcome(r, State())
      ensures node.hChildren == if r.Success? then AnchorChildren(dir, r.value, node.depth, node.rendered) else old(node.hChildren)
    {
      var made := MintSlug(node);
      if made.Failure? {
        return made;
      }
      r := PlaceEntry(node, made.value);
    }

    /** Every heading of one document, in document order, stopping at the
        first failure: the result and the state left behind are those of
        `VisitAll`. */
    method ProcessHeadings(nodes: seq<HeadingNode>) returns (r: Result<seq<string>, HeadingError>)
      requires Valid()
      modifies this, session, nodes
      ensures Valid()
      ensures VisitAll(session.SlugOf, sectionTitle, old(State()), nodes, asWritten) == Outcome(r, State())
    {
      ghost var start := State();
      var minted: seq<string> := [];
      assert nodes[..0] == [];
      while |minted| < |nodes|
        invariant |minted| <= |nodes|
        invariant Valid()
        invariant VisitAll(session.SlugOf, sectionTitle, start, nodes[..|minted|], asWritten) == Outcome(Success(minted), State())
        decreases |nodes| - |minted|
      {
        var i := |minted|;
        ghost var mid := State();
        var v := Visit(nodes[i]);
        assert VisitAll(session.SlugOf, sectionTitle, start, nodes[..i + 1], asWritten)
            == Outcome(if v.Success? then Success(minted + [v.value]) else Failure(v.error), State()) by {
          VisitAllNext(session.SlugOf, sectionTitle, start, nodes, asWritten, minted, mid);
        }
        if v.Failure? {
          assert VisitAll(session.SlugOf, sectionTitle, start, nodes, asWritten) == Outcome(Failure(v.error), State()) by {
            VisitStops(session.SlugOf, sectionTitle, start, nodes, asWritten, i + 1);
          }
          return Failure(v.error);
        }
        minted := minted + [v.value];
      }
      TakeAll(nodes);
      r := Success(minted);
    }
  }

  /** Two documents of one run share the module-level session: the same
      first depth-3 heading under the same section title gets its slug in the
      first document and fails as a duplicate in the second. */
  method SharedSessionAcrossDocuments(slugify: Slugify, isLetter: char -> bool, sectionTitle: string, dir: string, text: string)
    returns (first: Result<string, HeadingError>, second: Result<string, HeadingError>)
    ensures first.Success?
    ensures second == Failure(SessionError(DuplicateSlug(first.value)))
  {
    var session := new SlugSession(slugify, isLetter, SessionOptions(Some(HeadingPreserveUnicode), Some(HeadingSeparator)));
    var one := new HeadingState(sectionTitle, dir, 3, session, true);
    var two := new HeadingState(sectionTitle, dir, 3, session, true);
    var h1 := new HeadingNode(3, text, []);
    var h2 := new HeadingNode(3, text, []);
    first := one.Visit(h1);
    second := two.Visit(h2);
  }
}
