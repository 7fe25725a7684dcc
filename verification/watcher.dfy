/** internal/watcher/watcher.go: the checksum diff and one iteration of the
    polling loop.

    `newDiff` ranges over two Go maps; the model receives each map's iteration
    order as a list that visits every key once (Go leaves the order
    unspecified), and every property holds for every such order. The loop's
    sleep, the log line and the blocking channel sends are not modelled: one
    tick collects the checksums (an input here) and reports what it would send.
 */
module Watcher {
  import opened Results
  import opened Lists
  import opened MysqlConn

  /** A checksum diff: changed, new and vanished tables. */
  datatype Diff = Diff(updated: seq<string>, created: seq<string>, deleted: seq<string>)

  /** `Diff.Empty`: no table updated, created or deleted. */
  predicate Empty(d: Diff)
    ensures Empty(d) <==> d == Diff([], [], [])
  {
    |d.updated| == 0 && |d.created| == 0 && |d.deleted| == 0
  }

  // ---------------------------------------------------------------------------
  // newDiff
  // ---------------------------------------------------------------------------

  /** The `oldChks != newChks` branch of the loop over the new map. */
  function UpdatedIn(before: ChecksumMap, after: ChecksumMap, order: seq<string>): (r: seq<string>)
    requires forall t :: t in order ==> t in after
    ensures forall t :: t in r <==> t in order && t in before && before[t] != after[t]
    ensures NoDups(order) ==> NoDups(r)
  {
    if |order| == 0 then []
    else if order[0] in before && before[order[0]] != after[order[0]] then [order[0]] + UpdatedIn(before, after, order[1..])
    else UpdatedIn(before, after, order[1..])
  }

  /** `newDiff(o, n)`, ranging over `n` in `newOrder` and over `o` in `oldOrder`. */
  function NewDiff(before: ChecksumMap, after: ChecksumMap, oldOrder: seq<string>, newOrder: seq<string>): (d: Diff)
    requires Enumerates(oldOrder, before.Keys) && Enumerates(newOrder, after.Keys)
    ensures forall t :: t in d.created <==> t in after && t !in before
    ensures forall t :: t in d.updated <==> t in after && t in before && after[t] != before[t]
    ensures forall t :: t in d.deleted <==> t in before && t !in after
    ensures NoDups(d.created) && NoDups(d.updated) && NoDups(d.deleted)
  {
    Diff(UpdatedIn(before, after, newOrder), Absent(before, newOrder), Absent(after, oldOrder))
  }

  /** Every table of either map lands in exactly one of created, updated,
      deleted, or in none when both maps give it the same checksum. */
  lemma NewDiffPartition(before: ChecksumMap, after: ChecksumMap, oldOrder: seq<string>, newOrder: seq<string>, t: string)
    requires Enumerates(oldOrder, before.Keys) && Enumerates(newOrder, after.Keys)
    requires t in before || t in after
    ensures var d := NewDiff(before, after, oldOrder, newOrder);
      var buckets := (if t in d.created then 1 else 0) + (if t in d.updated then 1 else 0)
                     + (if t in d.deleted then 1 else 0);
      && (t in before && t in after && before[t] == after[t] ==> buckets == 0)
      && (!(t in before && t in after && before[t] == after[t]) ==> buckets == 1)
  {
  }

  /** The diff is empty exactly when the two maps are equal. */
  lemma NewDiffEmptyIff(before: ChecksumMap, after: ChecksumMap, oldOrder: seq<string>, newOrder: seq<string>)
    requires Enumerates(oldOrder, before.Keys) && Enumerates(newOrder, after.Keys)
    ensures Empty(NewDiff(before, after, oldOrder, newOrder)) <==> before == after
  {
    var d := NewDiff(before, after, oldOrder, newOrder);
    MapsEqualIff(before, after);
    EmptyWhenNoMember(d.created);
    EmptyWhenNoMember(d.updated);
    EmptyWhenNoMember(d.deleted);
    if before == after {
      assert forall t :: t !in d.created;
      assert forall t :: t !in d.updated;
      assert forall t :: t !in d.deleted;
    }
    if Empty(d) {
      assert forall t :: t in after ==> t in before by {
        forall t | t in after ensures t in before {
          assert t !in d.created;
        }
      }
      assert forall t :: t in before ==> t in after && after[t] == before[t] by {
        forall t | t in before ensures t in after && after[t] == before[t] {
          assert t !in d.deleted;
          assert t !in d.updated;
        }
      }
    }
  }

  /** Diffing a map against itself reports nothing. */
  lemma NewDiffSelf(x: ChecksumMap, order1: seq<string>, order2: seq<string>)
    requires Enumerates(order1, x.Keys) && Enumerates(order2, x.Keys)
    ensures Empty(NewDiff(x, x, order1, order2))
  {
    NewDiffEmptyIff(x, x, order1, order2);
  }

  lemma {:induction false} UpdatedInNone(after: ChecksumMap, order: seq<string>)
    requires forall t :: t in order ==> t in after
    ensures UpdatedIn(map[], after, order) == []
  {
    if |order| > 0 {
      UpdatedInNone(after, order[1..]);
    }
  }

  /** Against an empty (or nil) old map, created lists every table of the new
      map in iteration order, and nothing is updated or deleted. */
  lemma NewDiffColdStart(after: ChecksumMap, newOrder: seq<string>)
    requires Enumerates(newOrder, after.Keys)
    ensures NewDiff(map[], after, [], newOrder) == Diff([], newOrder, [])
  {
    var none: ChecksumMap := map[];
    AbsentFromEmpty(none, newOrder);
    UpdatedInNone(after, newOrder);
  }

  /** old = {A:"1", B:"2"}, new = {A:"1", B:"3", C:"4"}: B updated, C created. */
  lemma ExampleUpdateAndCreate()
    ensures NewDiff(map["A" := "1", "B" := "2"], map["A" := "1", "B" := "3", "C" := "4"],
                    ["A", "B"], ["A", "B", "C"])
         == Diff(["B"], ["C"], [])
  {
    var before := map["A" := "1", "B" := "2"];
    var after := map["A" := "1", "B" := "3", "C" := "4"];
    assert ["A", "B", "C"][1..] == ["B", "C"];
    assert ["B", "C"][1..] == ["C"];
    assert ["A", "B"][1..] == ["B"];
    assert ["B"][1..] == [];
    assert ["C"][1..] == [];
    assert Enumerates(["A", "B"], before.Keys);
    assert Enumerates(["A", "B", "C"], after.Keys);
  }

  /** old = {A:"1"}, new = {}: A deleted. */
  lemma ExampleDelete()
    ensures NewDiff(map["A" := "1"], map[], ["A"], []) == Diff([], [], ["A"])
  {
    assert ["A"][1..] == [];
  }

  // ---------------------------------------------------------------------------
  // One iteration of Start
  // ---------------------------------------------------------------------------

  /** What a tick puts on the watcher's channels. */
  datatype Emission = Quiet | SentError(error: string) | SentDiff(diff: Diff)

  /** The polling loop's state: the checksums it compares against. */
  datatype Watcher = Watcher(lastChks: ChecksumMap)

  /** `var lastChks map[string]string`: the nil map, which ranges over nothing. */
  const Initial := Watcher(map[])

  datatype Step = Step(next: Watcher, sent: Emission)

  /** One iteration of `Start` as written: collect; on failure send the error;
      otherwise diff against `lastChks` and send the diff unless it is empty.
      `lastChks` is never assigned, so the state never changes. */
  function Tick(w: Watcher, collected: Result<ChecksumMap>, lastOrder: seq<string>, order: seq<string>): (s: Step)
    requires Enumerates(lastOrder, w.lastChks.Keys)
    requires collected.Ok? ==> Enumerates(order, collected.value.Keys)
    ensures s.next == w
    ensures collected.Err? ==> s.sent == SentError(collected.error)
    ensures collected.Ok? ==> !s.sent.SentError? && (s.sent.SentDiff? <==> collected.value != w.lastChks)
    ensures s.sent.SentDiff? ==> s.sent.diff == NewDiff(w.lastChks, collected.value, lastOrder, order)
  {
    match collected
    case Err(e) => Step(w, SentError(e))
    case Ok(chks) =>
      var d := NewDiff(w.lastChks, chks, lastOrder, order);
      NewDiffEmptyIff(w.lastChks, chks, lastOrder, order);
      if Empty(d) then Step(w, Quiet) else Step(w, SentDiff(d))
  }

  /** As written, every tick compares against the nil map: a failure sends
      exactly its error, an empty schema sends nothing, and any other schema
      is sent with every table listed as created. */
  lemma TickAsWritten(collected: Result<ChecksumMap>, order: seq<string>)
    requires collected.Ok? ==> Enumerates(order, collected.value.Keys)
    ensures var s := Tick(Initial, collected, [], order);
      && s.next == Initial
      && (collected.Err? ==> s.sent == SentError(collected.error))
      && (collected.Ok? && collected.value == map[] ==> s.sent == Quiet)
      && (collected.Ok? && collected.value != map[] ==> s.sent == SentDiff(Diff([], order, [])))
  {
    if collected.Ok? {
      NewDiffColdStart(collected.value, order);
    }
  }

  /** The same non-empty schema sampled twice in a row is reported twice,
      both times as all tables created. */
  lemma UnchangedTablesReportedEveryTick(m: ChecksumMap, order: seq<string>)
    requires m != map[] && Enumerates(order, m.Keys)
    ensures var first := Tick(Initial, Ok(m), [], order);
            var second := Tick(first.next, Ok(m), [], order);
            first.sent == SentDiff(Diff([], order, [])) && second.sent == first.sent
  {
    TickAsWritten(Ok(m), order);
  }

  /** One iteration with the baseline updated after each successful sample: a
      failure leaves the baseline alone; a success replaces it with the
      collected checksums. */
  function TickFixed(w: Watcher, collected: Result<ChecksumMap>, lastOrder: seq<string>, order: seq<string>): (s: Step)
    requires Enumerates(lastOrder, w.lastChks.Keys)
    requires collected.Ok? ==> Enumerates(order, collected.value.Keys)
    ensures collected.Err? ==> s == Step(w, SentError(collected.error))
    ensures collected.Ok? ==> s.next == Watcher(collected.value)
    ensures collected.Ok? ==> !s.sent.SentError? && (s.sent.SentDiff? <==> collected.value != w.lastChks)
    ensures s.sent.SentDiff? ==> s.sent.diff == NewDiff(w.lastChks, collected.value, lastOrder, order)
  {
    match collected
    case Err(e) => Step(w, SentError(e))
    case Ok(chks) =>
      var d := NewDiff(w.lastChks, chks, lastOrder, order);
      NewDiffEmptyIff(w.lastChks, chks, lastOrder, order);
      if Empty(d) then Step(Watcher(chks), Quiet) else Step(Watcher(chks), SentDiff(d))
  }

  /** Corrected, a schema that has not changed since the last successful
      sample sends nothing, whatever the iteration orders. */
  lemma RepeatedSampleIsQuiet(w: Watcher, m: ChecksumMap, lastOrder: seq<string>, order1: seq<string>, order2: seq<string>)
    requires Enumerates(lastOrder, w.lastChks.Keys)
    requires Enumerates(order1, m.Keys) && Enumerates(order2, m.Keys)
    ensures var first := TickFixed(w, Ok(m), lastOrder, order1);
            TickFixed(first.next, Ok(m), order1, order2).sent == Quiet
  {
  }

  /** Corrected, a failed tick changes nothing: the next successful tick sends
      what it would have sent had the failure not happened. */
  lemma FailedTickKeepsBaseline(w: Watcher, e: string, m: ChecksumMap, lastOrder: seq<string>, order: seq<string>)
    requires Enumerates(lastOrder, w.lastChks.Keys) && Enumerates(order, m.Keys)
    ensures var failed := TickFixed(w, Err(e), lastOrder, order);
            failed.sent == SentError(e)
            && TickFixed(failed.next, Ok(m), lastOrder, order) == TickFixed(w, Ok(m), lastOrder, order)
  {
  }

  /** Corrected, the first successful tick still reports every table as created. */
  lemma FixedColdStart(m: ChecksumMap, order: seq<string>)
    requires m != map[] && Enumerates(order, m.Keys)
    ensures TickFixed(Initial, Ok(m), [], order) == Step(Watcher(m), SentDiff(Diff([], order, [])))
  {
    NewDiffColdStart(m, order);
  }
}
