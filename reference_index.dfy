/**
 * The reference-index builder of the sourceID recovery check
 * (`extract_source_ids_from_output`): one pass over the parsed lines of a
 * model-output file that collects, for every assertion whose justification
 * names a source, a usage record under that source id (`source_ids`, an
 * insertion-ordered dict of lists) and an audit record (`all_assertions`).
 *
 * The builder is the method `ExtractSourceIds`. Its specification is the fold
 * of `GroupAll` and `AuditsOf` over the sequence `AllCitations` of citing
 * assertions in file order, flattened by `Seqs.ConcatMap`; `LineCitations`
 * takes a unit context because a line needs none. Inputs on which the script
 * raises outside its JSON-decoding handler are excluded by the builder's
 * precondition `WellFormedOutput`.
 */
module ReferenceIndex {
  import opened Json
  import opened OrderedMap
  import opened Seqs

  /** An element of `source_ids[id]`: `{line, utterance, assertion_idx, assertion_text}`. */
  datatype Usage = Usage(line: nat, utterance: string, assertionIdx: nat, assertionText: string)

  /** An element of `all_assertions`: `{line, source_id, utterance, assertion_text}`. */
  datatype AuditRecord = AuditRecord(line: nat, sourceId: string, utterance: string, assertionText: string)

  /** One assertion that cites a source: the id it cites, where it stands, the
      utterance snippet of its line and its full text. */
  datatype Citation = Citation(sourceId: string, line: nat, utterance: string, assertionIdx: nat, text: string)

  // ---------------------------------------------------------------------------
  // Reading a line and an assertion.

  /** `data.get('utterance', '')[:50] + '...'` */
  function UtteranceOf(data: Json): string {
    Prefix(AsStr(Get(Fields(data), "utterance", Str(""))), 50) + "..."
  }

  /** `data.get('assertions', [])`; a blank or malformed line has none. */
  function AssertionsOf(l: Line): seq<Json> {
    if l.Record? then Items(Get(Fields(l.data), "assertions", Arr([]))) else []
  }

  /** `assertion.get('justification', assertion.get('reasoning', {}))` */
  function JustificationOf(a: Json): Json {
    Get(Fields(a), "justification", Get(Fields(a), "reasoning", Obj(map[])))
  }

  /** `justification.get('sourceID') or justification.get('sourceId')`, or null
      when the justification is not an object. */
  function ChosenId(a: Json): Json {
    var j := JustificationOf(a);
    if !j.Obj? then Null
    else
      var upper := Get(j.fields, "sourceID", Null);
      if Truthy(upper) then upper else Get(j.fields, "sourceId", Null)
  }

  /** The source id an assertion cites, if it cites one. */
  function SourceIdOf(a: Json): (r: Option<string>)
    ensures r.Some? ==> r.value != ""
    ensures r.Some? ==>
      && JustificationOf(a).Obj?
      && (|| Get(JustificationOf(a).fields, "sourceID", Null) == Str(r.value)
          || (!Truthy(Get(JustificationOf(a).fields, "sourceID", Null)) &&
              Get(JustificationOf(a).fields, "sourceId", Null) == Str(r.value)))
  {
    var id := ChosenId(a);
    if id.Str? && Truthy(id) then Some(id.s) else None
  }

  /** `assertion.get('text', '')` */
  function TextOf(a: Json): string {
    AsStr(Get(Fields(a), "text", Str("")))
  }

  // ---------------------------------------------------------------------------
  // Shape of the input that the script handles without raising.

  predicate WellFormedAssertion(a: Json) {
    && a.Obj?
    && (Truthy(ChosenId(a)) ==> ChosenId(a).Str? && StrOrAbsent(a.fields, "text"))
  }

  /** A decoded line the script reads without raising: a string utterance, if
      any, and `assertions` a list of well-formed assertions, or an empty
      string or object, which yields nothing. */
  predicate WellFormedOutputLine(l: Line) {
    l.Record? ==>
      && l.data.Obj?
      && StrOrAbsent(l.data.fields, "utterance")
      && ("assertions" in l.data.fields ==>
            var v := l.data.fields["assertions"];
            || (v.Arr? && forall i :: 0 <= i < |v.items| ==> WellFormedAssertion(v.items[i]))
            || v == Str("")
            || v == Obj(map[]))
  }

  predicate WellFormedOutput(lines: seq<Line>) {
    forall i :: 0 <= i < |lines| ==> WellFormedOutputLine(lines[i])
  }

  // ---------------------------------------------------------------------------
  // The citing assertions, in processing order.

  /** Where the assertions of a line stand: the line's number and utterance snippet. */
  datatype Origin = Origin(line: nat, utterance: string)

  /** The citation of the assertion at position `idx` of a line, if it cites a source. */
  function AssertionCitations(origin: Origin, idx: nat, a: Json): seq<Citation> {
    match SourceIdOf(a)
    case None => []
    case Some(id) => [Citation(id, origin.line, origin.utterance, idx, TextOf(a))]
  }

  /** The citations of the assertions `xs` of a line, numbered from 0. */
  function AssertionsCitations(origin: Origin, xs: seq<Json>): seq<Citation> {
    if xs == [] then []
    else AssertionsCitations(origin, xs[..|xs| - 1]) + AssertionCitations(origin, |xs| - 1, xs[|xs| - 1])
  }

  /** The citations of the line numbered `line`. */
  function LineCitations(none: (), line: nat, l: Line): seq<Citation> {
    if l.Record? then AssertionsCitations(Origin(line, UtteranceOf(l.data)), AssertionsOf(l)) else []
  }

  /** The citations of consecutive lines, the first of which has number `first`. */
  function Citations(lines: seq<Line>, first: nat): seq<Citation> {
    ConcatMap(LineCitations, (), lines, first)
  }

  /** The citations of an output file; line numbers start at 1. */
  function AllCitations(lines: seq<Line>): seq<Citation> {
    Citations(lines, 1)
  }

  /** The usage record of a citation; its text is cut to 60 characters and marked. */
  function UsageOf(c: Citation): Usage {
    Usage(c.line, c.utterance, c.assertionIdx, Prefix(c.text, 60) + "...")
  }

  /** The audit record of a citation; its text is cut to 80 characters. */
  function AuditOf(c: Citation): AuditRecord {
    AuditRecord(c.line, c.sourceId, c.utterance, Prefix(c.text, 80))
  }

  /** `source_ids[id]` of the `defaultdict(list)`: empty when absent. */
  function UsagesOf(g: OMap<string, seq<Usage>>, id: string): seq<Usage> {
    if id in g.values then g.values[id] else []
  }

  /** `source_ids` after recording the citations `cs` in order. */
  function GroupAll(cs: seq<Citation>): OMap<string, seq<Usage>> {
    if cs == [] then OMap([], map[])
    else
      var g, c := GroupAll(cs[..|cs| - 1]), cs[|cs| - 1];
      g.Put(c.sourceId, UsagesOf(g, c.sourceId) + [UsageOf(c)])
  }

  /** `all_assertions` after recording the citations `cs` in order. */
  function AuditsOf(cs: seq<Citation>): seq<AuditRecord> {
    if cs == [] then [] else AuditsOf(cs[..|cs| - 1]) + [AuditOf(cs[|cs| - 1])]
  }

  // ---------------------------------------------------------------------------
  // The builder.

  /** The two results of the builder: `source_ids` and `all_assertions`. */
  datatype Collected = Collected(sourceIds: OMap<string, seq<Usage>>, allAssertions: seq<AuditRecord>)

  /** Both results after recording the citations `cs` in order. */
  function CollectAll(cs: seq<Citation>): Collected {
    Collected(GroupAll(cs), AuditsOf(cs))
  }

  method ExtractSourceIds(lines: seq<Line>) returns (sourceIds: OMap<string, seq<Usage>>, allAssertions: seq<AuditRecord>)
    requires WellFormedOutput(lines)
    ensures sourceIds == GroupAll(AllCitations(lines))
    ensures allAssertions == AuditsOf(AllCitations(lines))
  {
    var state := Collected(OMap([], map[]), []);
    ghost var done: seq<Citation> := [];
    var n := 0;
    while n < |lines|
      invariant n <= |lines|
      invariant done == Citations(lines[..n], 1)
      invariant state == CollectAll(done)
    {
      var lineNum: nat := n + 1;
      state := RecordLine(state, lines[n], lineNum, done);
      ConcatMapStep(LineCitations, (), lines, 1, n);
      done := done + LineCitations((), lineNum, lines[n]);
      n := n + 1;
    }
    assert lines[..n] == lines;
    sourceIds, allAssertions := state.sourceIds, state.allAssertions;
  }

  /** The body of the loop over lines. */
  method RecordLine(state: Collected, line: Line, lineNum: nat, ghost done: seq<Citation>) returns (state': Collected)
    requires WellFormedOutputLine(line)
    requires state == CollectAll(done)
    ensures state' == CollectAll(done + LineCitations((), lineNum, line))
  {
    state' := state;
    if !line.Record? {
      assert done + [] == done;
      return;
    }
    var data := line.data.fields;
    var utterance := Prefix(GetStr(data, "utterance"), 50) + "...";
    var assertions := Items(Get(data, "assertions", Arr([])));
    UtteranceSnippet(line);
    AssertionWellFormed(line);
    state' := RecordAssertions(state, assertions, lineNum, utterance, done);
  }

  /** The loop over the assertions of one line. */
  method RecordAssertions(state: Collected, assertions: seq<Json>, lineNum: nat, utterance: string, ghost done: seq<Citation>)
    returns (state': Collected)
    requires forall i :: 0 <= i < |assertions| ==> WellFormedAssertion(assertions[i])
    requires state == CollectAll(done)
    ensures state' == CollectAll(done + AssertionsCitations(Origin(lineNum, utterance), assertions))
  {
    state' := state;
    ghost var origin := Origin(lineNum, utterance);
    ghost var local: seq<Citation> := [];
    assert done + local == done;
    var idx := 0;
    while idx < |assertions|
      invariant idx <= |assertions|
      invariant local == AssertionsCitations(origin, assertions[..idx])
      invariant state' == CollectAll(done + local)
    {
      ghost var added := AssertionCitations(origin, idx, assertions[idx]);
      state' := RecordAssertion(state', assertions[idx], lineNum, utterance, idx, done + local);
      assert assertions[..idx + 1][..idx] == assertions[..idx];
      ConcatAssoc(done, local, added);
      local := local + added;
      idx := idx + 1;
    }
    assert assertions[..idx] == assertions;
  }

  /** The body of the loop over assertions. */
  method RecordAssertion(state: Collected, assertion: Json, lineNum: nat, utterance: string, idx: nat, ghost done: seq<Citation>)
    returns (state': Collected)
    requires WellFormedAssertion(assertion)
    requires state == CollectAll(done)
    ensures state' == CollectAll(done + AssertionCitations(Origin(lineNum, utterance), idx, assertion))
  {
    state' := state;
    var fields := assertion.fields;
    var justification := Get(fields, "justification", Get(fields, "reasoning", Obj(map[])));
    if justification.Obj? {
      var sourceId := Get(justification.fields, "sourceID", Null);
      if !Truthy(sourceId) {
        sourceId := Get(justification.fields, "sourceId", Null);
      }
      if Truthy(sourceId) {
        var id := sourceId.s;
        var text := GetStr(fields, "text");
        var usage := Usage(lineNum, utterance, idx, Prefix(text, 60) + "...");
        var usages := if id in state.sourceIds.values then state.sourceIds.values[id] else [];
        state' := Collected(state.sourceIds.Put(id, usages + [usage]),
                            state.allAssertions + [AuditRecord(lineNum, id, utterance, Prefix(text, 80))]);
        ghost var c := Citation(id, lineNum, utterance, idx, text);
        assert AssertionCitations(Origin(lineNum, utterance), idx, assertion) == [c];
        RecordStep(done, c);
        return;
      }
    }
    assert AssertionCitations(Origin(lineNum, utterance), idx, assertion) == [];
    assert done + [] == done;
  }

  lemma UtteranceSnippet(line: Line)
    requires WellFormedOutputLine(line) && line.Record?
    ensures Prefix(GetStr(line.data.fields, "utterance"), 50) + "..." == UtteranceOf(line.data)
  {
  }

  lemma AssertionWellFormed(line: Line)
    requires WellFormedOutputLine(line)
    ensures forall i :: 0 <= i < |AssertionsOf(line)| ==> WellFormedAssertion(AssertionsOf(line)[i])
  {
  }

  lemma RecordStep(cs: seq<Citation>, c: Citation)
    ensures GroupAll(cs + [c]) == GroupAll(cs).Put(c.sourceId, UsagesOf(GroupAll(cs), c.sourceId) + [UsageOf(c)])
    ensures AuditsOf(cs + [c]) == AuditsOf(cs) + [AuditOf(c)]
  {
    assert (cs + [c])[..|cs|] == cs;
  }

  // ---------------------------------------------------------------------------
  // Which assertions are recorded.

  /** The assertion at position `i` of line `l`, numbered `line`, cites a source
      and yields the citation `c`. */
  ghost predicate Cites(l: Line, line: nat, i: nat, c: Citation) {
    && l.Record?
    && i < |AssertionsOf(l)|
    && SourceIdOf(AssertionsOf(l)[i]) == Some(c.sourceId)
    && c == Citation(c.sourceId, line, UtteranceOf(l.data), i, TextOf(AssertionsOf(l)[i]))
  }

  lemma {:induction false} AssertionsCitationsMembers(origin: Origin, xs: seq<Json>, c: Citation)
    ensures c in AssertionsCitations(origin, xs) <==>
      exists i :: 0 <= i < |xs| && SourceIdOf(xs[i]) == Some(c.sourceId) &&
        c == Citation(c.sourceId, origin.line, origin.utterance, i, TextOf(xs[i]))
  {
    if xs != [] {
      var p := xs[..|xs| - 1];
      AssertionsCitationsMembers(origin, p, c);
      if c in AssertionsCitations(origin, p) {
        var i :| 0 <= i < |p| && SourceIdOf(p[i]) == Some(c.sourceId) &&
          c == Citation(c.sourceId, origin.line, origin.utterance, i, TextOf(p[i]));
        assert xs[i] == p[i];
      }
      forall i | 0 <= i < |p| ensures xs[i] == p[i] { }
    }
  }

  /** The assertion at position `i` of line index `n` (numbered `n + 1`) yields `c`. */
  ghost predicate CitedAt(lines: seq<Line>, n: nat, i: nat, c: Citation) {
    n < |lines| && Cites(lines[n], n + 1, i, c)
  }

  lemma LineCitationsMembers(lines: seq<Line>, n: nat, c: Citation)
    requires n < |lines|
    ensures c in LineCitations((), 1 + n, lines[n]) <==> exists i :: CitedAt(lines, n, i, c)
  {
    var l := lines[n];
    if l.Record? {
      var xs := AssertionsOf(l);
      AssertionsCitationsMembers(Origin(1 + n, UtteranceOf(l.data)), xs, c);
      if c in LineCitations((), 1 + n, l) {
        var i :| 0 <= i < |xs| && SourceIdOf(xs[i]) == Some(c.sourceId) &&
          c == Citation(c.sourceId, 1 + n, UtteranceOf(l.data), i, TextOf(xs[i]));
        assert CitedAt(lines, n, i, c);
      }
    }
  }

  /** An assertion is recorded exactly when its justification names a
      non-empty source id, with its line number and its position in the line. */
  lemma CitationsExactly(lines: seq<Line>, c: Citation)
    ensures c in AllCitations(lines) <==> exists n, i :: CitedAt(lines, n, i, c)
  {
    ConcatMapMembers(LineCitations, (), lines, 1, c);
    forall n | 0 <= n < |lines|
      ensures c in LineCitations((), 1 + n, lines[n]) <==> exists i :: CitedAt(lines, n, i, c)
    {
      LineCitationsMembers(lines, n, c);
    }
  }

  /** Only non-empty ids are recorded. */
  lemma CitedIdsNonEmpty(lines: seq<Line>, c: Citation)
    requires c in AllCitations(lines)
    ensures c.sourceId != ""
  {
    CitationsExactly(lines, c);
  }

  /** The lookup rules: `justification` shadows `reasoning` (even when it is
      not an object), `sourceID` wins when truthy and `sourceId` is used
      otherwise, and an id counts only when it is a non-empty string. */
  lemma SourceIdLookup(a: Json, s: string)
    requires s != ""
    ensures "justification" in Fields(a) && !Fields(a)["justification"].Obj? ==> SourceIdOf(a) == None
    ensures "justification" !in Fields(a) && "reasoning" !in Fields(a) ==> SourceIdOf(a) == None
    ensures JustificationOf(a).Obj? && Get(JustificationOf(a).fields, "sourceID", Null) == Str(s) ==>
      SourceIdOf(a) == Some(s)
    ensures (&& JustificationOf(a).Obj?
             && !Truthy(Get(JustificationOf(a).fields, "sourceID", Null))
             && Get(JustificationOf(a).fields, "sourceId", Null) == Str(s))
            ==> SourceIdOf(a) == Some(s)
  {
  }

  /** A blank or malformed line records nothing, and the lines after it are
      still processed under their physical line numbers. */
  lemma SkippedOutputLine(a: seq<Line>, skipped: Line, b: seq<Line>)
    requires !skipped.Record?
    ensures AllCitations(a + [skipped] + b) == AllCitations(a) + Citations(b, |a| + 2)
  {
    var at: nat := |a| + 1;
    ConcatMapAppend(LineCitations, (), a, [skipped], 1);
    NoCitationsFromSkipped(skipped, at);
    ConcatMapAppend(LineCitations, (), a + [skipped], b, 1);
  }

  /** `assertions` given as an empty string or object yields no citation. */
  lemma NonListAssertionsCiteNothing(l: Line, at: nat)
    requires l.Record? && "assertions" in Fields(l.data) && !Fields(l.data)["assertions"].Arr?
    ensures LineCitations((), at, l) == []
  {
  }

  lemma NoCitationsFromSkipped(skipped: Line, at: nat)
    requires !skipped.Record?
    ensures Citations([skipped], at) == []
  {
    assert Citations([skipped], at) == ConcatMap(LineCitations, (), [], at) + LineCitations((), at, skipped);
  }

  // ---------------------------------------------------------------------------
  // Properties of the fold: key order, usage lists, counts.

  /** The cited ids in processing order, with repetitions. */
  function CitedIds(cs: seq<Citation>): seq<string> {
    if cs == [] then [] else CitedIds(cs[..|cs| - 1]) + [cs[|cs| - 1].sourceId]
  }

  /** The usage records of the citations of `id`, in processing order. */
  function UsagesFor(cs: seq<Citation>, id: string): seq<Usage> {
    if cs == [] then []
    else
      var c := cs[|cs| - 1];
      UsagesFor(cs[..|cs| - 1], id) + if c.sourceId == id then [UsageOf(c)] else []
  }

  /** The keys of `source_ids` are the cited ids, each once, in the order of
      their first citation. */
  lemma {:induction false} GroupOrder(cs: seq<Citation>)
    ensures GroupAll(cs).Valid()
    ensures GroupAll(cs).keys == Dedup(CitedIds(cs))
  {
    if cs != [] {
      var p := cs[..|cs| - 1];
      GroupOrder(p);
      var ids := CitedIds(cs);
      assert ids[..|ids| - 1] == CitedIds(p);
    }
  }

  /** `source_ids[id]` lists the usages of exactly the citations of `id`, in
      processing order. */
  lemma {:induction false} GroupContents(cs: seq<Citation>, id: string)
    ensures UsagesOf(GroupAll(cs), id) == UsagesFor(cs, id)
  {
    if cs != [] {
      GroupContents(cs[..|cs| - 1], id);
    }
  }

  lemma {:induction false} CitedIdsMembers(cs: seq<Citation>, id: string)
    ensures id in CitedIds(cs) <==> exists i :: 0 <= i < |cs| && cs[i].sourceId == id
    ensures id in CitedIds(cs) <==> UsagesFor(cs, id) != []
  {
    if cs != [] {
      var p := cs[..|cs| - 1];
      CitedIdsMembers(p, id);
      forall i | 0 <= i < |p| ensures cs[i] == p[i] { }
    }
  }

  /** An id is a key exactly when some recorded assertion cites it, and then
      its usage list is not empty. */
  lemma GroupKeys(cs: seq<Citation>, id: string)
    ensures id in GroupAll(cs).values <==> exists i :: 0 <= i < |cs| && cs[i].sourceId == id
    ensures id in GroupAll(cs).values ==> UsagesOf(GroupAll(cs), id) != []
  {
    GroupOrder(cs);
    GroupContents(cs, id);
    CitedIdsMembers(cs, id);
  }

  /** The empty string is never a key of `source_ids`. */
  lemma EmptyIdNeverKey(lines: seq<Line>)
    ensures "" !in GroupAll(AllCitations(lines)).values
  {
    var cs := AllCitations(lines);
    GroupKeys(cs, "");
    if "" in GroupAll(cs).values {
      var i :| 0 <= i < |cs| && cs[i].sourceId == "";
      CitedIdsNonEmpty(lines, cs[i]);
    }
  }

  /** The total length of the usage lists of the keys `ks`. */
  function SumUsages(ks: seq<string>, g: OMap<string, seq<Usage>>): nat {
    if ks == [] then 0 else SumUsages(ks[..|ks| - 1], g) + |UsagesOf(g, ks[|ks| - 1])|
  }

  lemma {:induction false} SumUpdate(ks: seq<string>, g: OMap<string, seq<Usage>>, g': OMap<string, seq<Usage>>, k: string)
    requires forall i, j :: 0 <= i < j < |ks| ==> ks[i] != ks[j]
    requires forall x :: x != k ==> UsagesOf(g', x) == UsagesOf(g, x)
    requires |UsagesOf(g', k)| == |UsagesOf(g, k)| + 1
    ensures SumUsages(ks, g') == SumUsages(ks, g) + if k in ks then 1 else 0
  {
    if ks != [] {
      var p := ks[..|ks| - 1];
      SumUpdate(p, g, g', k);
      assert ks == p + [ks[|ks| - 1]];
      if ks[|ks| - 1] == k {
        forall i | 0 <= i < |p| ensures p[i] != k {
          assert p[i] == ks[i];
        }
      }
    }
  }

  /** The usage lists together hold one usage per recorded assertion, as many
      as the audit list holds records. */
  lemma {:induction false} UsageTotal(cs: seq<Citation>)
    ensures SumUsages(GroupAll(cs).keys, GroupAll(cs)) == |cs| == |AuditsOf(cs)|
  {
    if cs != [] {
      var p, c := cs[..|cs| - 1], cs[|cs| - 1];
      UsageTotal(p);
      GroupOrder(p);
      var g, g' := GroupAll(p), GroupAll(cs);
      var k := c.sourceId;
      GroupStep(p, c);
      SumUpdate(g.keys, g, g', k);
      if k in g.values {
        assert g'.keys == g.keys;
      } else {
        var ks := g.keys + [k];
        assert g'.keys == ks && ks[..|ks| - 1] == g.keys;
        assert SumUsages(ks, g') == SumUsages(g.keys, g') + |UsagesOf(g', k)|;
      }
      assert |AuditsOf(cs)| == |AuditsOf(p)| + 1;
    }
  }

  /** Recording one more citation appends one usage under its id and changes no other list. */
  lemma GroupStep(p: seq<Citation>, c: Citation)
    ensures var g, g' := GroupAll(p), GroupAll(p + [c]);
      && g'.keys == (if c.sourceId in g.values then g.keys else g.keys + [c.sourceId])
      && UsagesOf(g', c.sourceId) == UsagesOf(g, c.sourceId) + [UsageOf(c)]
      && forall x :: x != c.sourceId ==> UsagesOf(g', x) == UsagesOf(g, x)
  {
    assert (p + [c])[..|p|] == p;
  }

  /** The audit list holds one record per recorded assertion, in processing order. */
  lemma {:induction false} AuditsInOrder(cs: seq<Citation>)
    ensures |AuditsOf(cs)| == |cs|
    ensures forall i :: 0 <= i < |cs| ==> AuditsOf(cs)[i] == AuditOf(cs[i])
  {
    if cs != [] {
      var p := cs[..|cs| - 1];
      AuditsInOrder(p);
      forall i | 0 <= i < |p| ensures cs[i] == p[i] { }
    }
  }

  /** The utterance and text snippets: prefixes of at most 50, 60 and 80
      characters, the first two marked with "...". */
  lemma Snippets(data: Json, c: Citation)
    ensures var u := UtteranceOf(data);
      3 <= |u| <= 53 && u[|u| - 3..] == "..." && u[..|u| - 3] <= AsStr(Get(Fields(data), "utterance", Str("")))
    ensures var t := UsageOf(c).assertionText;
      3 <= |t| <= 63 && t[|t| - 3..] == "..." && t[..|t| - 3] <= c.text
    ensures |AuditOf(c).assertionText| <= 80 && AuditOf(c).assertionText <= c.text
  {
    var u := UtteranceOf(data);
    assert u[..|u| - 3] == Prefix(AsStr(Get(Fields(data), "utterance", Str(""))), 50);
    var t := UsageOf(c).assertionText;
    assert t[..|t| - 3] == Prefix(c.text, 60);
  }

  // ---------------------------------------------------------------------------
  // Processing order is file order.

  /** `c` stands before `d` in the file: on an earlier line, or earlier in the same line. */
  predicate Before(c: Citation, d: Citation) {
    c.line < d.line || (c.line == d.line && c.assertionIdx < d.assertionIdx)
  }

  predicate InFileOrder(cs: seq<Citation>) {
    forall i, j :: 0 <= i < j < |cs| ==> Before(cs[i], cs[j])
  }

  lemma OrderedConcat(a: seq<Citation>, b: seq<Citation>)
    requires InFileOrder(a) && InFileOrder(b)
    requires forall i, j :: 0 <= i < |a| && 0 <= j < |b| ==> Before(a[i], b[j])
    ensures InFileOrder(a + b)
  {
    forall i, j | 0 <= i < j < |a + b|
      ensures Before((a + b)[i], (a + b)[j])
    {
      if j < |a| {
        assert (a + b)[i] == a[i] && (a + b)[j] == a[j];
      } else if i < |a| {
        assert (a + b)[i] == a[i] && (a + b)[j] == b[j - |a|];
      } else {
        assert (a + b)[i] == b[i - |a|] && (a + b)[j] == b[j - |a|];
      }
    }
  }

  /** The citations of one line carry its number and come in order of position. */
  lemma {:induction false} LineInFileOrder(origin: Origin, xs: seq<Json>)
    ensures var cs := AssertionsCitations(origin, xs);
      && InFileOrder(cs)
      && forall i :: 0 <= i < |cs| ==> cs[i].line == origin.line && cs[i].assertionIdx < |xs|
  {
    if xs != [] {
      var p := xs[..|xs| - 1];
      LineInFileOrder(origin, p);
      OrderedConcat(AssertionsCitations(origin, p), AssertionCitations(origin, |p|, xs[|p|]));
    }
  }

  /** The citations of consecutive lines come in file order, within their line numbers. */
  lemma {:induction false} LinesInFileOrder(lines: seq<Line>, first: nat)
    ensures var cs := Citations(lines, first);
      && InFileOrder(cs)
      && forall i :: 0 <= i < |cs| ==> first <= cs[i].line < first + |lines|
  {
    if lines != [] {
      var p := lines[..|lines| - 1];
      var l := lines[|lines| - 1];
      LinesInFileOrder(p, first);
      var at: nat := first + |p|;
      if l.Record? {
        LineInFileOrder(Origin(at, UtteranceOf(l.data)), AssertionsOf(l));
      }
      assert Citations(lines, first) == Citations(p, first) + LineCitations((), at, l);
      OrderedConcat(Citations(p, first), LineCitations((), at, l));
    }
  }

  /** The recorded assertions, and hence the audit list, are in file order. */
  lemma CitationsInFileOrder(lines: seq<Line>)
    ensures InFileOrder(AllCitations(lines))
  {
    LinesInFileOrder(lines, 1);
  }

  /** Usage `u` stands before usage `v` in the file. */
  predicate UsageBefore(u: Usage, v: Usage) {
    u.line < v.line || (u.line == v.line && u.assertionIdx < v.assertionIdx)
  }

  /** Every usage of `id` is the usage of some citation. */
  lemma {:induction false} UsagesFrom(cs: seq<Citation>, id: string, k: nat)
    requires k < |UsagesFor(cs, id)|
    ensures exists i :: 0 <= i < |cs| && UsagesFor(cs, id)[k] == UsageOf(cs[i])
  {
    var p, c := cs[..|cs| - 1], cs[|cs| - 1];
    if k < |UsagesFor(p, id)| {
      UsagesFrom(p, id, k);
      var i :| 0 <= i < |p| && UsagesFor(p, id)[k] == UsageOf(p[i]);
      assert cs[i] == p[i];
    } else {
      assert UsagesFor(cs, id)[k] == UsageOf(cs[|cs| - 1]);
    }
  }

  /** Usages listed in file order. */
  predicate UsagesOrdered(u: seq<Usage>) {
    forall i, j :: 0 <= i < j < |u| ==> UsageBefore(u[i], u[j])
  }

  /** Citations in file order give usages in file order. */
  lemma {:induction false} UsagesInOrder(cs: seq<Citation>, id: string)
    requires InFileOrder(cs)
    ensures UsagesOrdered(UsagesFor(cs, id))
  {
    if cs != [] {
      var p, c := cs[..|cs| - 1], cs[|cs| - 1];
      assert InFileOrder(p) by {
        forall i, j | 0 <= i < j < |p| ensures Before(p[i], p[j]) {
          assert p[i] == cs[i] && p[j] == cs[j];
        }
      }
      UsagesInOrder(p, id);
      var up := UsagesFor(p, id);
      if c.sourceId == id {
        var u := up + [UsageOf(c)];
        assert UsagesFor(cs, id) == u;
        forall i, j | 0 <= i < j < |u| ensures UsageBefore(u[i], u[j]) {
          if j == |up| {
            UsagesFrom(p, id, i);
            var k :| 0 <= k < |p| && up[i] == UsageOf(p[k]);
            assert p[k] == cs[k] && Before(cs[k], cs[|cs| - 1]);
            assert u[i] == UsageOf(p[k]) && u[j] == UsageOf(c);
          } else {
            assert u[i] == up[i] && u[j] == up[j];
          }
        }
      } else {
        assert UsagesFor(cs, id) == up + [];
        assert up + [] == up;
      }
    }
  }

  /** Each list `source_ids[id]` is in file order: by line, then by position. */
  lemma UsageListsInFileOrder(lines: seq<Line>, id: string)
    ensures UsagesOrdered(UsagesOf(GroupAll(AllCitations(lines)), id))
  {
    CitationsInFileOrder(lines);
    GroupContents(AllCitations(lines), id);
    UsagesInOrder(AllCitations(lines), id);
  }
}
