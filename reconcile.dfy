/**
 * The reconciliation in the script's `main`: the cited source ids (the keys of
 * `source_ids`, in first-citation order) are split into those found in the
 * entity index of the new context file and those missing from it, the same
 * split is repeated against the old context file when that one yields any
 * identifiers, and the counts, the match rate and the per-type identifier
 * counts go into the report.
 */
module Reconcile {
  import opened Json
  import opened OrderedMap
  import EntityIndex
  import ReferenceIndex

  // ---------------------------------------------------------------------------
  // The partition.

  /** The ids of `keys` that the index knows, in the order of `keys`. */
  function Matched(keys: seq<string>, known: set<string>): seq<string> {
    if keys == [] then []
    else
      var k := keys[|keys| - 1];
      Matched(keys[..|keys| - 1], known) + if k in known then [k] else []
  }

  /** The ids of `keys` that the index does not know, in the order of `keys`. */
  function Unmatched(keys: seq<string>, known: set<string>): seq<string> {
    if keys == [] then []
    else
      var k := keys[|keys| - 1];
      Unmatched(keys[..|keys| - 1], known) + if k in known then [] else [k]
  }

  /** The loop `for source_id in source_ids.keys(): if source_id in entity_ids: ...`. */
  method Partition(keys: seq<string>, entityIds: map<string, EntityIndex.EntityInfo>)
    returns (matched: seq<string>, unmatched: seq<string>)
    ensures matched == Matched(keys, entityIds.Keys)
    ensures unmatched == Unmatched(keys, entityIds.Keys)
  {
    matched, unmatched := [], [];
    var i := 0;
    while i < |keys|
      invariant i <= |keys|
      invariant matched == Matched(keys[..i], entityIds.Keys)
      invariant unmatched == Unmatched(keys[..i], entityIds.Keys)
    {
      assert keys[..i + 1][..i] == keys[..i];
      if keys[i] in entityIds {
        matched := matched + [keys[i]];
      } else {
        unmatched := unmatched + [keys[i]];
      }
      i := i + 1;
    }
    assert keys[..i] == keys;
  }

  /** Membership in the two lists, without the counting. */
  lemma {:induction false} PartitionMembers(keys: seq<string>, known: set<string>)
    ensures forall x :: x in Matched(keys, known) <==> x in keys && x in known
    ensures forall x :: x in Unmatched(keys, known) <==> x in keys && x !in known
  {
    if keys != [] {
      var p := keys[..|keys| - 1];
      PartitionMembers(p, known);
      assert keys == p + [keys[|keys| - 1]];
    }
  }

  /** Together the two lists hold every key as often as `keys` does. */
  lemma {:induction false} PartitionCounts(keys: seq<string>, known: set<string>)
    ensures multiset(Matched(keys, known)) + multiset(Unmatched(keys, known)) == multiset(keys)
    ensures |Matched(keys, known)| + |Unmatched(keys, known)| == |keys|
  {
    if keys != [] {
      var p, k := keys[..|keys| - 1], keys[|keys| - 1];
      PartitionCounts(p, known);
      assert keys == p + [k];
    }
  }

  /** The two lists split the keys exactly: an id is matched exactly when the
      index knows it, unmatched exactly when it does not, and together the two
      lists hold every key as often as `keys` does. */
  lemma PartitionExact(keys: seq<string>, known: set<string>)
    ensures forall x :: x in Matched(keys, known) <==> x in keys && x in known
    ensures forall x :: x in Unmatched(keys, known) <==> x in keys && x !in known
    ensures multiset(Matched(keys, known)) + multiset(Unmatched(keys, known)) == multiset(keys)
    ensures |Matched(keys, known)| + |Unmatched(keys, known)| == |keys|
  {
    PartitionMembers(keys, known);
    PartitionCounts(keys, known);
  }

  /** Keys listed once each stay listed once each in both lists. */
  lemma {:induction false} PartitionDistinct(keys: seq<string>, known: set<string>)
    requires forall i, j :: 0 <= i < j < |keys| ==> keys[i] != keys[j]
    ensures var m := Matched(keys, known); forall i, j :: 0 <= i < j < |m| ==> m[i] != m[j]
    ensures var u := Unmatched(keys, known); forall i, j :: 0 <= i < j < |u| ==> u[i] != u[j]
  {
    if keys != [] {
      var p, k := keys[..|keys| - 1], keys[|keys| - 1];
      PartitionDistinct(p, known);
      PartitionExact(p, known);
      assert k !in p by {
        forall i | 0 <= i < |p| ensures p[i] != k {
          assert p[i] == keys[i];
        }
      }
    }
  }


  /** Each list keeps the order of `keys`: two matched keys appear in the
      matched list in the order in which they appear among the keys. */
  lemma {:induction false} MatchedKeepsOrder(keys: seq<string>, known: set<string>, i: nat, j: nat)
    requires i < j < |keys| && keys[i] in known && keys[j] in known
    ensures exists a, b ::
      0 <= a < b < |Matched(keys, known)| && Matched(keys, known)[a] == keys[i] && Matched(keys, known)[b] == keys[j]
  {
    var p := keys[..|keys| - 1];
    var m, mp := Matched(keys, known), Matched(p, known);
    assert p[i] == keys[i];
    if j < |keys| - 1 {
      assert p[j] == keys[j];
      MatchedKeepsOrder(p, known, i, j);
      var a, b :| 0 <= a < b < |mp| && mp[a] == p[i] && mp[b] == p[j];
      assert m[a] == mp[a] && m[b] == mp[b];
    } else {
      PartitionMembers(p, known);
      assert keys[i] in p;
      var a :| 0 <= a < |mp| && mp[a] == p[i];
      assert m == mp + [keys[j]];
      assert m[a] == keys[i] && m[|m| - 1] == keys[j];
    }
  }

  /** Likewise for the unmatched list. */
  lemma {:induction false} UnmatchedKeepsOrder(keys: seq<string>, known: set<string>, i: nat, j: nat)
    requires i < j < |keys| && keys[i] !in known && keys[j] !in known
    ensures exists a, b ::
      0 <= a < b < |Unmatched(keys, known)| && Unmatched(keys, known)[a] == keys[i] && Unmatched(keys, known)[b] == keys[j]
  {
    var p := keys[..|keys| - 1];
    var u, up := Unmatched(keys, known), Unmatched(p, known);
    assert p[i] == keys[i];
    if j < |keys| - 1 {
      assert p[j] == keys[j];
      UnmatchedKeepsOrder(p, known, i, j);
      var a, b :| 0 <= a < b < |up| && up[a] == p[i] && up[b] == p[j];
      assert u[a] == up[a] && u[b] == up[b];
    } else {
      PartitionMembers(p, known);
      assert keys[i] in p;
      var a :| 0 <= a < |up| && up[a] == p[i];
      assert u == up + [keys[j]];
      assert u[a] == keys[i] && u[|u| - 1] == keys[j];
    }
  }

  /** Every key is matched exactly when the matched count equals the total,
      which is exactly when nothing is unmatched. */
  lemma AllMatched(keys: seq<string>, known: set<string>)
    ensures |Matched(keys, known)| == |keys| <==> forall x :: x in keys ==> x in known
    ensures |Matched(keys, known)| == |keys| <==> Unmatched(keys, known) == []
  {
    PartitionExact(keys, known);
    if Unmatched(keys, known) != [] {
      var x := Unmatched(keys, known)[0];
      assert x in keys && x !in known;
    }
  }

  /** A larger index never matches fewer keys. */
  lemma {:induction false} MatchedMonotone(keys: seq<string>, known: set<string>, known': set<string>)
    requires known <= known'
    ensures |Matched(keys, known)| <= |Matched(keys, known')|
  {
    if keys != [] {
      MatchedMonotone(keys[..|keys| - 1], known, known');
    }
  }

  // ---------------------------------------------------------------------------
  // The match rate.

  /** An exact quotient `num / den`. */
  datatype Fraction = Fraction(num: int, den: int)

  /** The result of a Python expression that may raise `ZeroDivisionError`. */
  datatype Outcome<T> = Value(value: T) | ZeroDivisionError

  /** `100*len(matched)/len(source_ids)` as the script evaluates it: it raises
      when there are no source ids. */
  function MatchRateAsWritten(matched: nat, total: nat): Outcome<Fraction> {
    if total == 0 then ZeroDivisionError else Value(Fraction(100 * matched, total))
  }

  /** The match rate as a percentage, or the absence of source ids to rate. */
  datatype Rate = NoSourceIds | Percent(rate: Fraction)

  /** The match rate with the empty case handled. */
  function MatchRate(matched: nat, total: nat): (r: Rate)
    requires matched <= total
    ensures r.NoSourceIds? <==> total == 0
    ensures r.Percent? ==> 0 <= r.rate.num <= 100 * r.rate.den && r.rate.den == total
    ensures r.Percent? ==> (r.rate.num == 100 * r.rate.den <==> matched == total)
    ensures r.Percent? ==> MatchRateAsWritten(matched, total) == Value(r.rate)
  {
    if total == 0 then NoSourceIds else Percent(Fraction(100 * matched, total))
  }

  /** The script divides by zero before it writes any report exactly when no
      assertion of the output file cites a source: an empty file, a file of
      blank or undecodable lines, or one whose assertions name no source. */
  lemma EmptyOutputDividesByZero(outputLines: seq<Line>, known: set<string>)
    ensures var keys := CitedKeys(outputLines);
      var rate := MatchRateAsWritten(|Matched(keys, known)|, |keys|);
      rate == ZeroDivisionError <==> ReferenceIndex.AllCitations(outputLines) == []
  {
    var cs := ReferenceIndex.AllCitations(outputLines);
    ReferenceIndex.GroupOrder(cs);
    if cs != [] {
      ReferenceIndex.CitedIdsMembers(cs, cs[0].sourceId);
    }
  }

  // ---------------------------------------------------------------------------
  // The comparison with the old context file.

  /** Which message the improvement analysis prints. */
  datatype Verdict = NewRecoversMore(margin: nat) | OldRecoversMore(margin: nat) | SameRecovery

  /** `improvement = len(matched_new) - len(matched_old)` and its sign. */
  function VerdictOf(matchedNew: nat, matchedOld: nat): (v: Verdict)
    ensures v.NewRecoversMore? <==> matchedNew > matchedOld
    ensures v.OldRecoversMore? <==> matchedNew < matchedOld
    ensures v.NewRecoversMore? ==> matchedNew == matchedOld + v.margin
    ensures v.OldRecoversMore? ==> matchedOld == matchedNew + v.margin
  {
    var improvement := matchedNew - matchedOld;
    if improvement > 0 then NewRecoversMore(improvement)
    else if improvement < 0 then OldRecoversMore(-improvement)
    else SameRecovery
  }

  /** The split against the old context file and the verdict. */
  datatype Comparison = Comparison(matchedOld: seq<string>, unmatchedOld: seq<string>, verdict: Verdict)

  // ---------------------------------------------------------------------------
  // The report.

  /** The report `sourceid_recovery_report.json`. */
  datatype Report = Report(
    contextFile: string,
    outputFile: string,
    totalSourceIds: nat,
    matchedCount: nat,
    unmatchedCount: nat,
    matchRate: Rate,
    matchedSourceIds: seq<string>,
    unmatchedSourceIds: seq<string>,
    entityTypesInContext: seq<(string, nat)>)

  /** `{k: len(v) for k, v in entity_types.items()}`, in insertion order. */
  function TypeCounts(types: OMap<string, set<string>>): seq<(string, nat)>
    decreases |types.keys|
  {
    if types.keys == [] then []
    else
      var k := types.keys[|types.keys| - 1];
      TypeCounts(OMap(types.keys[..|types.keys| - 1], types.values)) + [(k, |EntityIndex.BucketOf(types, k)|)]
  }

  /** The cited source ids of an output file, in first-citation order. */
  function CitedKeys(outputLines: seq<Line>): seq<string> {
    ReferenceIndex.GroupAll(ReferenceIndex.AllCitations(outputLines)).keys
  }

  /** The identifiers an entity index knows. */
  function KnownIds(contextLines: seq<Line>): set<string> {
    EntityIndex.BuildIndex(contextLines).ids.Keys
  }

  /** The report for a context file and an output file. */
  function ReportOf(contextLines: seq<Line>, outputLines: seq<Line>, contextFile: string, outputFile: string): Report {
    var keys, known := CitedKeys(outputLines), KnownIds(contextLines);
    var matched, unmatched := Matched(keys, known), Unmatched(keys, known);
    PartitionExact(keys, known);
    Report(contextFile, outputFile, |keys|, |matched|, |unmatched|, MatchRate(|matched|, |keys|),
           matched, unmatched, TypeCounts(EntityIndex.BuildIndex(contextLines).types))
  }

  /** The comparison with the old context file, made only when that file was
      read and yielded at least one identifier. */
  function ComparisonOf(contextLines: seq<Line>, oldContextLines: Option<seq<Line>>, outputLines: seq<Line>): Option<Comparison> {
    if oldContextLines.None? || EntityIndex.BuildIndex(oldContextLines.value).ids == map[] then None
    else
      var keys := CitedKeys(outputLines);
      var oldKnown := KnownIds(oldContextLines.value);
      Some(Comparison(Matched(keys, oldKnown), Unmatched(keys, oldKnown),
                      VerdictOf(|Matched(keys, KnownIds(contextLines))|, |Matched(keys, oldKnown)|)))
  }

  /** The script's run on parsed files: both extractions, the split against
      the new index, the optional comparison with the old index, the summary
      verdict and the report. */
  method CheckRecovery(contextLines: seq<Line>, oldContextLines: Option<seq<Line>>, outputLines: seq<Line>,
                       contextFile: string, outputFile: string)
    returns (report: Report, comparison: Option<Comparison>, allRecovered: bool)
    requires EntityIndex.WellFormedContext(contextLines)
    requires oldContextLines.Some? ==> EntityIndex.WellFormedContext(oldContextLines.value)
    requires ReferenceIndex.WellFormedOutput(outputLines)
    ensures report == ReportOf(contextLines, outputLines, contextFile, outputFile)
    ensures comparison == ComparisonOf(contextLines, oldContextLines, outputLines)
    ensures allRecovered <==> report.matchedCount == report.totalSourceIds
  {
    var newIndex := EntityIndex.ExtractEntityIds(contextLines);
    var oldEntityIds: map<string, EntityIndex.EntityInfo> := map[];
    if oldContextLines.Some? {
      var oldIndex := EntityIndex.ExtractEntityIds(oldContextLines.value);
      oldEntityIds := oldIndex.ids;
    }
    var sourceIds, allAssertions := ReferenceIndex.ExtractSourceIds(outputLines);
    var matchedNew, unmatchedNew := Partition(sourceIds.keys, newIndex.ids);
    comparison := None;
    if oldEntityIds != map[] {
      var matchedOld, unmatchedOld := Partition(sourceIds.keys, oldEntityIds);
      comparison := Some(Comparison(matchedOld, unmatchedOld, VerdictOf(|matchedNew|, |matchedOld|)));
    }
    allRecovered := |matchedNew| == |sourceIds.keys|;
    PartitionExact(sourceIds.keys, newIndex.ids.Keys);
    report := Report(contextFile, outputFile, |sourceIds.keys|, |matchedNew|, |unmatchedNew|,
                     MatchRate(|matchedNew|, |sourceIds.keys|), matchedNew, unmatchedNew,
                     TypeCounts(newIndex.types));
  }

  // ---------------------------------------------------------------------------
  // Properties of the report.

  /** The counts add up, the lists split the cited ids exactly, and the
      "ALL recovered" verdict holds exactly when every cited id is known. */
  lemma ReportCounts(contextLines: seq<Line>, outputLines: seq<Line>, contextFile: string, outputFile: string)
    ensures var r := ReportOf(contextLines, outputLines, contextFile, outputFile);
      && r.matchedCount + r.unmatchedCount == r.totalSourceIds
      && r.matchedCount == |r.matchedSourceIds| && r.unmatchedCount == |r.unmatchedSourceIds|
      && (r.matchedCount == r.totalSourceIds <==> r.unmatchedSourceIds == [])
      && (r.matchedCount == r.totalSourceIds <==>
            forall id :: id in CitedKeys(outputLines) ==> id in KnownIds(contextLines))
  {
    var keys, known := CitedKeys(outputLines), KnownIds(contextLines);
    PartitionExact(keys, known);
    AllMatched(keys, known);
  }

  /** A cited id is reported as matched exactly when some recorded assertion
      cites it and some entity of the context file carries it; matched and
      unmatched ids are distinct and disjoint. */
  lemma ReportLists(contextLines: seq<Line>, outputLines: seq<Line>, contextFile: string, outputFile: string, id: string)
    ensures var r := ReportOf(contextLines, outputLines, contextFile, outputFile);
      var cs := ReferenceIndex.AllCitations(outputLines);
      && (id in r.matchedSourceIds <==>
            (exists i :: 0 <= i < |cs| && cs[i].sourceId == id) &&
            (exists w: EntityIndex.Write :: w.id == id && EntityIndex.IndexedFrom(contextLines, w)))
      && (id in r.unmatchedSourceIds <==>
            (exists i :: 0 <= i < |cs| && cs[i].sourceId == id) &&
            !(exists w: EntityIndex.Write :: w.id == id && EntityIndex.IndexedFrom(contextLines, w)))
      && (forall i, j :: 0 <= i < j < |r.matchedSourceIds| ==> r.matchedSourceIds[i] != r.matchedSourceIds[j])
      && (forall i, j :: 0 <= i < j < |r.unmatchedSourceIds| ==> r.unmatchedSourceIds[i] != r.unmatchedSourceIds[j])
  {
    var cs := ReferenceIndex.AllCitations(outputLines);
    var keys, known := CitedKeys(outputLines), KnownIds(contextLines);
    PartitionExact(keys, known);
    ReferenceIndex.GroupOrder(cs);
    ReferenceIndex.GroupKeys(cs, id);
    EntityIndex.EntityIndexKeys(contextLines, id);
    PartitionDistinct(keys, known);
  }

  /** The per-type counts follow the buckets in insertion order, each with
      the number of identifiers in it. */
  lemma {:induction false} TypeCountsExact(types: OMap<string, set<string>>)
    requires forall k :: k in types.keys ==> k in types.values
    ensures |TypeCounts(types)| == |types.keys|
    ensures forall i :: 0 <= i < |types.keys| ==>
      TypeCounts(types)[i] == (types.keys[i], |types.values[types.keys[i]]|)
    decreases |types.keys|
  {
    if types.keys != [] {
      var p := OMap(types.keys[..|types.keys| - 1], types.values);
      TypeCountsExact(p);
      forall i | 0 <= i < |p.keys| ensures types.keys[i] == p.keys[i] { }
    }
  }

  /** The context part of the report: every bucket of the context file, in
      first-write order, with its number of distinct identifiers. */
  lemma ReportTypeCounts(contextLines: seq<Line>, outputLines: seq<Line>, contextFile: string, outputFile: string)
    ensures var r := ReportOf(contextLines, outputLines, contextFile, outputFile);
      var ws := EntityIndex.LinesWrites(contextLines, 1);
      var buckets := Dedup(EntityIndex.Buckets(ws));
      && |r.entityTypesInContext| == |buckets|
      && forall i :: 0 <= i < |buckets| ==>
           r.entityTypesInContext[i] ==
             (buckets[i], |set w | w in ws && w.bucket == buckets[i] :: w.id|)
  {
    var ws := EntityIndex.LinesWrites(contextLines, 1);
    var types := EntityIndex.TypesOf(ws);
    EntityIndex.TypeBucketOrder(ws);
    TypeCountsExact(types);
    forall b | b in types.keys
      ensures types.values[b] == set w | w in ws && w.bucket == b :: w.id
    {
      EntityIndex.TypeBucketContents(ws, b);
    }
  }

  /** When the old context file knows no identifier the new one lacks, the
      analysis never reports the old file as recovering more. */
  lemma NewIndexSupersetNeverWorse(contextLines: seq<Line>, oldContextLines: seq<Line>, outputLines: seq<Line>)
    requires KnownIds(oldContextLines) <= KnownIds(contextLines)
    ensures var c := ComparisonOf(contextLines, Some(oldContextLines), outputLines);
      c.Some? ==> !c.value.verdict.OldRecoversMore?
  {
    MatchedMonotone(CitedKeys(outputLines), KnownIds(oldContextLines), KnownIds(contextLines));
  }
}
