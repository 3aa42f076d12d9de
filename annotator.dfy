/** `highlight_entities_in_text` (medical-nlp-streamlit.py, 446-461): the
    entities, sorted by descending `start`, are wrapped one after another in
    `<span>` markup by a first-occurrence literal replacement on the
    progressively edited text; offsets only decide the order. */
module Annotator {
  import opened JsonValues

  /** The three keys of an entity dict that the annotator reads
      (`labelName` holds `entity["label"]`; `label` is a Dafny keyword). */
  datatype Entity = Entity(text: string, labelName: string, start: int)

  // ---------------------------------------------------------------------
  // str.replace(old, new, 1)

  /** `pat` occurs in `s` at index `i`. */
  predicate OccursAt(s: string, pat: string, i: nat)
  {
    i + |pat| <= |s| && s[i..i + |pat|] == pat
  }

  /** `p` is where `s.find(pat)` lands: an occurrence with none before it. */
  predicate FirstOccurrence(s: string, pat: string, p: nat)
  {
    OccursAt(s, pat, p) && forall j: nat :: j < p ==> !OccursAt(s, pat, j)
  }

  /** The first occurrence of `pat` at or after index `i`. */
  function FindFrom(s: string, pat: string, i: nat): (r: Option<nat>)
    decreases |s| - i
    ensures r.Some? ==> i <= r.value && OccursAt(s, pat, r.value) &&
                        forall j: nat :: i <= j < r.value ==> !OccursAt(s, pat, j)
    ensures r.None? ==> forall j: nat :: i <= j ==> !OccursAt(s, pat, j)
  {
    if i + |pat| > |s| then None
    else if s[i..i + |pat|] == pat then Some(i)
    else FindFrom(s, pat, i + 1)
  }

  /** Python's `s.replace(pat, rep, 1)`. */
  function ReplaceFirst(s: string, pat: string, rep: string): string
  {
    match FindFrom(s, pat, 0)
    case None => s
    case Some(p) => s[..p] + rep + s[p + |pat|..]
  }

  /** Where `pat` occurs, its first occurrence, and only that one, is
      replaced by `rep`. An empty `pat` occurs first at index 0, so `rep` is
      then put in front of `s`. */
  lemma ReplaceFirstOccurrence(s: string, pat: string, rep: string, p: nat)
    requires FirstOccurrence(s, pat, p)
    ensures ReplaceFirst(s, pat, rep) == s[..p] + rep + s[p + |pat|..]
  {
    var q := FindFrom(s, pat, 0);
    assert q.Some?;
  }

  /** Where `pat` does not occur, the string comes back unchanged. */
  lemma ReplaceFirstAbsent(s: string, pat: string, rep: string)
    requires forall j: nat :: !OccursAt(s, pat, j)
    ensures ReplaceFirst(s, pat, rep) == s
  {
  }

  /** The empty pattern: `s.replace("", rep, 1) == rep + s`. */
  lemma ReplaceFirstEmpty(s: string, rep: string)
    ensures ReplaceFirst(s, "", rep) == rep + s
  {
    assert OccursAt(s, "", 0);
    ReplaceFirstOccurrence(s, "", rep, 0);
  }

  /** A pattern whose first character does not appear in `a` occurs first
      right after `a`. */
  lemma ReplaceAfterPrefix(a: string, pat: string, b: string, rep: string)
    requires pat != [] && pat[0] !in a
    ensures ReplaceFirst(a + pat + b, pat, rep) == a + rep + b
  {
    var s := a + pat + b;
    assert s[|a|..|a| + |pat|] == pat;
    forall j: nat | j < |a| ensures !OccursAt(s, pat, j) {
      assert s[j] == a[j];
    }
    ReplaceFirstOccurrence(s, pat, rep, |a|);
    assert s[..|a|] == a && s[|a| + |pat|..] == b;
  }

  /** Whatever follows an occurrence of `pat` survives the replacement: the
      first occurrence is at or before it. */
  lemma ReplaceFirstKeepsTail(s: string, pat: string, rep: string, q: nat, tail: string)
    requires OccursAt(s, pat, q) && s[q + |pat|..] == tail
    ensures var r := ReplaceFirst(s, pat, rep);
      |r| >= |tail| && r[|r| - |tail|..] == tail
  {
    var found := FindFrom(s, pat, 0);
    assert found.Some?;
    var p := found.value;
    assert p <= q;
    var r := s[..p] + rep + s[p + |pat|..];
    assert s[p + |pat|..] == s[p + |pat|..q + |pat|] + tail;
    assert r == (s[..p] + rep + s[p + |pat|..q + |pat|]) + tail;
  }

  // ---------------------------------------------------------------------
  // entity["label"].lower().replace("_", "-")

  /** `lower()` on one character, for ASCII letters. */
  function LowerAscii(c: char): char
  {
    if 'A' <= c <= 'Z' then (c as int - 'A' as int + 'a' as int) as char else c
  }

  function Lower(s: string): (r: string)
    ensures |r| == |s| && forall i :: 0 <= i < |s| ==> r[i] == LowerAscii(s[i])
  {
    if s == [] then [] else [LowerAscii(s[0])] + Lower(s[1..])
  }

  /** `replace("_", "-")`: every underscore becomes a hyphen. */
  function DashUnderscores(s: string): (r: string)
    ensures |r| == |s| && forall i :: 0 <= i < |s| ==> r[i] == if s[i] == '_' then '-' else s[i]
  {
    if s == [] then [] else [if s[0] == '_' then '-' else s[0]] + DashUnderscores(s[1..])
  }

  /** The CSS class derived from a label: no ASCII capital and no underscore
      is left, and every other character stays where it was. */
  function CssClass(labelName: string): (r: string)
    ensures |r| == |labelName|
    ensures forall i :: 0 <= i < |r| ==> !('A' <= r[i] <= 'Z') && r[i] != '_'
    ensures forall i :: 0 <= i < |r| ==> r[i] == if labelName[i] == '_' then '-' else LowerAscii(labelName[i])
  {
    DashUnderscores(Lower(labelName))
  }

  /** The opening tag of an entity's markup. */
  function SpanOpen(e: Entity): string
  {
    "<span class=\"entity-highlight " + CssClass(e.labelName) + "\">"
  }

  /** The markup that replaces an entity's text. */
  function Span(e: Entity): string
  {
    SpanOpen(e) + e.text + "</span>"
  }

  /** A label with an underscore, as the service sends them. */
  lemma BodyPartClass()
    ensures CssClass("BODY" + "_" + "PART") == "body" + "-" + "part"
  {
  }

  const AnnotatedOpen: string :=
    "<div class=\"annotated-text\" style=\"line-height: 1.8; padding: 10px; border-radius: 5px;\">"
  const AnnotatedClose: string := "</div>"

  // ---------------------------------------------------------------------
  // sorted(entities, key=lambda x: x["start"], reverse=True)

  /** Puts `e` before the first entity whose start is not greater. */
  function InsertByStart(e: Entity, s: seq<Entity>): seq<Entity>
  {
    if s == [] || s[0].start <= e.start then [e] + s
    else [s[0]] + InsertByStart(e, s[1..])
  }

  /** Python's stable sort on `start` with `reverse=True`. */
  function SortByStartDesc(s: seq<Entity>): seq<Entity>
  {
    if s == [] then [] else InsertByStart(s[0], SortByStartDesc(s[1..]))
  }

  predicate DescendingByStart(s: seq<Entity>)
  {
    forall i, j :: 0 <= i < j < |s| ==> s[i].start >= s[j].start
  }

  /** The entities of `s` whose start is `k`, in their order in `s`. */
  function WithStart(s: seq<Entity>, k: int): seq<Entity>
  {
    if s == [] then [] else (if s[0].start == k then [s[0]] else []) + WithStart(s[1..], k)
  }

  lemma {:induction false} InsertKeepsDescending(e: Entity, s: seq<Entity>)
    requires DescendingByStart(s)
    ensures DescendingByStart(InsertByStart(e, s))
    ensures |InsertByStart(e, s)| == |s| + 1
  {
    if s != [] && s[0].start > e.start {
      InsertKeepsDescending(e, s[1..]);
      InsertIsPermutation(e, s[1..]);
      var t := InsertByStart(e, s[1..]);
      forall i | 0 <= i < |t| ensures t[i].start <= s[0].start {
        assert t[i] in multiset(t);
        if t[i] != e {
          assert t[i] in multiset(s[1..]);
          var j :| 0 <= j < |s[1..]| && s[1..][j] == t[i];
          assert s[j + 1] == t[i];
        }
      }
    }
  }

  /** The sort puts entities in descending order of `start`. */
  lemma {:induction false} SortIsDescending(s: seq<Entity>)
    ensures DescendingByStart(SortByStartDesc(s))
    ensures |SortByStartDesc(s)| == |s|
  {
    if s != [] {
      SortIsDescending(s[1..]);
      InsertKeepsDescending(s[0], SortByStartDesc(s[1..]));
    }
  }

  /** The sort only reorders: the result is a permutation of the input. */
  lemma {:induction false} SortIsPermutation(s: seq<Entity>)
    ensures multiset(SortByStartDesc(s)) == multiset(s)
  {
    if s != [] {
      SortIsPermutation(s[1..]);
      InsertIsPermutation(s[0], SortByStartDesc(s[1..]));
      assert s == [s[0]] + s[1..];
    }
  }

  lemma {:induction false} InsertIsPermutation(e: Entity, s: seq<Entity>)
    ensures multiset(InsertByStart(e, s)) == multiset(s) + multiset{e}
  {
    if s != [] && s[0].start > e.start {
      InsertIsPermutation(e, s[1..]);
      assert s == [s[0]] + s[1..];
    }
  }

  lemma {:induction false} InsertWithStart(e: Entity, s: seq<Entity>, k: int)
    ensures WithStart(InsertByStart(e, s), k) == (if e.start == k then [e] else []) + WithStart(s, k)
  {
    var own := if e.start == k then [e] else [];
    if s == [] || s[0].start <= e.start {
      var t := [e] + s;
      assert t[0] == e && t[1..] == s;
      assert WithStart(t, k) == own + WithStart(s, k);
    } else {
      var rest := InsertByStart(e, s[1..]);
      InsertWithStart(e, s[1..], k);
      var head := if s[0].start == k then [s[0]] else [];
      assert e.start == k ==> head == [];
      var t := [s[0]] + rest;
      assert t[0] == s[0] && t[1..] == rest;
      calc {
        WithStart(t, k);
        head + WithStart(rest, k);
        head + (own + WithStart(s[1..], k));
        { assert head == [] || own == []; }
        own + (head + WithStart(s[1..], k));
        own + WithStart(s, k);
      }
    }
  }

  /** The sort is stable: entities with equal `start` keep their input order. */
  lemma {:induction false} SortIsStable(s: seq<Entity>, k: int)
    ensures WithStart(SortByStartDesc(s), k) == WithStart(s, k)
  {
    if s != [] {
      SortIsStable(s[1..], k);
      InsertWithStart(s[0], SortByStartDesc(s[1..]), k);
    }
  }

  // ---------------------------------------------------------------------
  // the annotation loop

  /** The working string after replacing, in order, each entity's text. */
  function AnnotateAll(text: string, entities: seq<Entity>): string
    decreases |entities|
  {
    if entities == [] then text
    else AnnotateAll(ReplaceFirst(text, entities[0].text, Span(entities[0])), entities[1..])
  }

  method HighlightEntitiesInText(text: string, entities: seq<Entity>) returns (html: string)
    ensures html == AnnotatedOpen + AnnotateAll(text, SortByStartDesc(entities)) + AnnotatedClose
    ensures entities == [] ==> html == AnnotatedOpen + text + AnnotatedClose
  {
    var sortedEntities := SortByStartDesc(entities);
    var highlighted := text;
    for i := 0 to |sortedEntities|
      invariant AnnotateAll(highlighted, sortedEntities[i..]) == AnnotateAll(text, sortedEntities)
    {
      var entity := sortedEntities[i];
      var entityClass := CssClass(entity.labelName);
      var replacement := "<span class=\"entity-highlight " + entityClass + "\">" + entity.text + "</span>";
      assert sortedEntities[i..][1..] == sortedEntities[i + 1..];
      highlighted := ReplaceFirst(highlighted, entity.text, replacement);
    }
    html := AnnotatedOpen + highlighted + AnnotatedClose;
  }

  /** Entities whose (non-empty) text does not occur in the text are skipped:
      the text comes back unchanged. */
  lemma {:induction false} AbsentEntitiesLeaveTextUnchanged(text: string, entities: seq<Entity>)
    requires forall i :: 0 <= i < |entities| ==>
      entities[i].text != [] && forall j: nat :: !OccursAt(text, entities[i].text, j)
    ensures AnnotateAll(text, entities) == text
  {
    if entities != [] {
      ReplaceFirstAbsent(text, entities[0].text, Span(entities[0]));
      AbsentEntitiesLeaveTextUnchanged(text, entities[1..]);
    }
  }

  lemma AnnotateTwo(text: string, e1: Entity, e2: Entity)
    ensures AnnotateAll(text, [e1, e2]) == ReplaceFirst(ReplaceFirst(text, e1.text, Span(e1)), e2.text, Span(e2))
  {
    var r1 := ReplaceFirst(text, e1.text, Span(e1));
    assert [e1, e2][1..] == [e2];
    assert AnnotateAll(text, [e1, e2]) == AnnotateAll(r1, [e2]);
    assert [e2][1..] == [];
    assert AnnotateAll(r1, [e2]) == AnnotateAll(ReplaceFirst(r1, e2.text, Span(e2)), []);
  }

  lemma SortTwo(e1: Entity, e2: Entity)
    requires e1.start < e2.start
    ensures SortByStartDesc([e1, e2]) == [e2, e1]
  {
    assert [e1, e2][1..] == [e2];
    assert [e2][1..] == [];
    assert SortByStartDesc([e2]) == [e2];
    assert InsertByStart(e1, [e2]) == [e2] + InsertByStart(e1, []);
  }

  lemma TwoWordsReplaced(before: string, w1: string, between: string, w2: string, r1: string, r2: string)
    requires w1 != [] && w2 != [] && w1[0] !in before && w2[0] !in before + w1 + between
    ensures ReplaceFirst(ReplaceFirst(before + w1 + between + w2, w2, r2), w1, r1) == before + r1 + between + r2
  {
    assert before + w1 + between + w2 == (before + w1 + between) + w2 + [];
    ReplaceAfterPrefix(before + w1 + between, w2, [], r2);
    assert (before + w1 + between) + r2 + [] == before + w1 + (between + r2);
    ReplaceAfterPrefix(before, w1, between + r2, r1);
  }

  /** Two entities with different words, each found first where it stands:
      both words are wrapped once, each in its own label's markup. */
  lemma TwoDistinctWords(before: string, e1: Entity, between: string, e2: Entity)
    requires e1.text != [] && e2.text != [] && e1.start < e2.start
    requires e1.text[0] !in before && e2.text[0] !in before + e1.text + between
    ensures AnnotateAll(before + e1.text + between + e2.text, SortByStartDesc([e1, e2]))
      == before + Span(e1) + between + Span(e2)
  {
    SortTwo(e1, e2);
    AnnotateTwo(before + e1.text + between + e2.text, e2, e1);
    TwoWordsReplaced(before, e1.text, between, e2.text, Span(e1), Span(e2));
  }

  /** "Patient has fever and cough" with a SYMPTOM "fever" at 13 and a
      TREATMENT "cough" at 23: each word is wrapped exactly once. */
  lemma FeverAndCough()
    ensures AnnotateAll("Patient has " + "fever" + " and " + "cough",
      SortByStartDesc([Entity("fever", "SYMPTOM", 13), Entity("cough", "TREATMENT", 23)]))
      == "Patient has " + Span(Entity("fever", "SYMPTOM", 13)) + " and " + Span(Entity("cough", "TREATMENT", 23))
  {
    TwoDistinctWords("Patient has ", Entity("fever", "SYMPTOM", 13), " and ", Entity("cough", "TREATMENT", 23));
  }

  /** The end of a string ends every string it ends. */
  lemma SuffixOfSuffix(r: string, front: string, back: string)
    requires |r| >= |front + back| && r[|r| - |front + back|..] == front + back
    ensures |r| >= |back| && r[|r| - |back|..] == back
  {
    var t := front + back;
    assert r[|r| - |back|..] == r[|r| - |t|..][|front|..];
    assert t[|front|..] == back;
  }

  /** In `w + between + w`, wrapping the first `w` in `open + w + close` and
      then replacing `w` once more replaces the first occurrence in the new
      string (the wrapped copy, or a match that overlaps `open`), never the
      second occurrence of the text. */
  lemma SecondOccurrenceSurvives(w: string, between: string, open: string, close: string, rep: string)
    requires w != []
    ensures var r := ReplaceFirst(ReplaceFirst(w + between + w, w, open + w + close), w, rep);
      |r| >= |between + w| && r[|r| - |between + w|..] == between + w
  {
    var s := open + w + (close + (between + w));
    assert w + between + w == w + (between + w);
    WrapFirst(w, between + w, open + w + close);
    assert (open + w + close) + (between + w) == s;
    InnerOccurrence(open, w, close + (between + w));
    ReplaceFirstKeepsTail(s, w, rep, |open|, close + (between + w));
    SuffixOfSuffix(ReplaceFirst(s, w, rep), close, between + w);
  }

  /** Text that starts with the pattern has that first occurrence replaced. */
  lemma WrapFirst(w: string, rest: string, rep: string)
    requires w != []
    ensures ReplaceFirst(w + rest, w, rep) == rep + rest
  {
    assert w + rest == [] + w + rest;
    ReplaceAfterPrefix([], w, rest, rep);
    assert [] + rep + rest == rep + rest;
  }

  /** Markup `open + w + rest` holds `w` right after `open`. */
  lemma InnerOccurrence(open: string, w: string, rest: string)
    ensures OccursAt(open + w + rest, w, |open|)
    ensures (open + w + rest)[|open| + |w|..] == rest
  {
    var s := open + w + rest;
    assert s[|open|..|open| + |w|] == w;
  }

  /** Two entities with the same text `w` in `w + between + w`: the one with
      the larger offset is applied first and wraps the occurrence at 0; the
      other one then finds the wrapped copy or a match that overlaps the
      opening tag. The second occurrence of `w` in the text is never
      wrapped. */
  lemma SharedTextCollision(e1: Entity, between: string, e2: Entity)
    requires e1.text == e2.text && e1.text != [] && e1.start < e2.start
    ensures var r := AnnotateAll(e1.text + between + e1.text, SortByStartDesc([e1, e2]));
      |r| >= |between + e1.text| && r[|r| - |between + e1.text|..] == between + e1.text
  {
    SortTwo(e1, e2);
    AnnotateTwo(e1.text + between + e1.text, e2, e1);
    assert Span(e2) == SpanOpen(e2) + e1.text + "</span>";
    SecondOccurrenceSurvives(e1.text, between, SpanOpen(e2), "</span>", Span(e1));
  }
}
