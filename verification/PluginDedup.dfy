/**
 * The deduplication rule the plugin's four log collectors share: an entry
 * whose id is already in `seen_events` is skipped, and an entry that gives an
 * event has its id appended to `seen_events`. `LogPass` is the effect of one
 * collector's loop over its entries.
 */
module PluginDedup {
  import opened Text
  import opened Events
  import opened PluginClassify

  /**
   * One collector's verdict on a message: an event to emit, nothing, or an
   * exception its loop catches.
   */
  type Classifier = string -> Result<Option<PluginEvent>>

  /** The message gives an event, which the loop then records as seen. */
  predicate Emits(classify: Classifier, m: string)
  {
    classify(m).Ok? && classify(m).value.Some?
  }

  /** The events found so far and the `seen_events` list. */
  datatype Pass = Pass(found: seq<PluginEvent>, seen: seq<string>)

  /** One turn of the loop: skip a seen id, else classify and record an emitted event. */
  function StepEntry(classify: Classifier, p: Pass, e: Entry): (q: Pass)
    ensures EntryId(e) in p.seen ==> q == p
    ensures EntryId(e) !in p.seen && Emits(classify, Message(e)) ==>
      q == Pass(p.found + [classify(Message(e)).value.value], p.seen + [EntryId(e)])
    ensures !Emits(classify, Message(e)) ==> q == p
  {
    var id := EntryId(e);
    if id in p.seen then p
    else
      match classify(Message(e))
      case Ok(Some(ev)) => Pass(p.found + [ev], p.seen + [id])
      case _ => p
  }

  /** The loop over `entries`, starting from `seen` and no events. */
  function LogPass(classify: Classifier, seen: seq<string>, entries: seq<Entry>): (p: Pass)
    ensures seen <= p.seen
    ensures |p.found| == |p.seen| - |seen|
    decreases |entries|
  {
    if |entries| == 0 then Pass([], seen)
    else StepEntry(classify, LogPass(classify, seen, entries[..|entries| - 1]), entries[|entries| - 1])
  }

  /** The ids a pass records are new: none was seen before, and none is recorded twice. */
  lemma {:induction false} LogPassFresh(classify: Classifier, seen: seq<string>, entries: seq<Entry>)
    ensures forall k :: |seen| <= k < |LogPass(classify, seen, entries).seen| ==>
      LogPass(classify, seen, entries).seen[k] !in seen
    ensures forall j, k :: |seen| <= j < k < |LogPass(classify, seen, entries).seen| ==>
      LogPass(classify, seen, entries).seen[j] != LogPass(classify, seen, entries).seen[k]
    decreases |entries|
  {
    var p := LogPass(classify, seen, entries);
    if |entries| > 0 {
      var n := |entries|;
      var init := entries[..n - 1];
      var q := LogPass(classify, seen, init);
      LogPassFresh(classify, seen, init);
      var e := entries[n - 1];
      if EntryId(e) !in q.seen && Emits(classify, Message(e)) {
        assert p.seen == q.seen + [EntryId(e)];
        forall k | |seen| <= k < |p.seen|
          ensures p.seen[k] !in seen
        {
          if k < |q.seen| {
            assert p.seen[k] == q.seen[k];
          }
        }
        forall j, k | |seen| <= j < k < |p.seen|
          ensures p.seen[j] != p.seen[k]
        {
          assert p.seen[j] == q.seen[j];
          if k < |q.seen| {
            assert p.seen[k] == q.seen[k];
          }
        }
      }
    }
  }

  /** A `seen_events` list without repeats stays without repeats. */
  lemma LogPassDistinct(classify: Classifier, seen: seq<string>, entries: seq<Entry>)
    requires Distinct(seen)
    ensures Distinct(LogPass(classify, seen, entries).seen)
  {
    var p := LogPass(classify, seen, entries);
    LogPassFresh(classify, seen, entries);
    forall j, k | 0 <= j < k < |p.seen|
      ensures p.seen[j] != p.seen[k]
    {
      if k < |seen| {
        assert p.seen[j] == seen[j] && p.seen[k] == seen[k];
      } else if j < |seen| {
        assert p.seen[j] == seen[j];
      }
    }
  }

  /** Some entry of `entries` has the id `id` and its message gives exactly `ev`. */
  ghost predicate EmittedBy(classify: Classifier, entries: seq<Entry>, id: string, ev: PluginEvent)
  {
    exists i :: 0 <= i < |entries| && EntryId(entries[i]) == id && classify(Message(entries[i])) == Ok(Some(ev))
  }

  /**
   * Each event found comes from an entry that gave exactly that event, and
   * that entry's id is the one recorded at the same position: unmatched
   * entries and skipped ones leave no trace.
   */
  lemma {:induction false} LogPassOrigins(classify: Classifier, seen: seq<string>, entries: seq<Entry>)
    ensures forall k :: 0 <= k < |LogPass(classify, seen, entries).found| ==>
      EmittedBy(classify, entries, LogPass(classify, seen, entries).seen[|seen| + k], LogPass(classify, seen, entries).found[k])
    decreases |entries|
  {
    var p := LogPass(classify, seen, entries);
    if |entries| > 0 {
      var n := |entries|;
      var init := entries[..n - 1];
      var q := LogPass(classify, seen, init);
      LogPassOrigins(classify, seen, init);
      var e := entries[n - 1];
      forall k | 0 <= k < |q.found|
        ensures EmittedBy(classify, entries, q.seen[|seen| + k], q.found[k])
      {
        assert EmittedBy(classify, init, q.seen[|seen| + k], q.found[k]);
        EmittedByLonger(classify, init, entries, q.seen[|seen| + k], q.found[k]);
      }
      if EntryId(e) !in q.seen && Emits(classify, Message(e)) {
        assert p.found == q.found + [classify(Message(e)).value.value];
        assert p.seen == q.seen + [EntryId(e)];
        assert EmittedBy(classify, entries, EntryId(e), classify(Message(e)).value.value) by {
          assert EntryId(entries[n - 1]) == EntryId(e);
        }
        forall k | 0 <= k < |p.found|
          ensures EmittedBy(classify, entries, p.seen[|seen| + k], p.found[k])
        {
          if k < |q.found| {
            assert p.seen[|seen| + k] == q.seen[|seen| + k] && p.found[k] == q.found[k];
          }
        }
      } else {
        assert p == q;
      }
    }
  }

  /** An entry of a prefix is an entry of the whole list. */
  lemma EmittedByLonger(classify: Classifier, init: seq<Entry>, entries: seq<Entry>, id: string, ev: PluginEvent)
    requires init <= entries && EmittedBy(classify, init, id, ev)
    ensures EmittedBy(classify, entries, id, ev)
  {
    var i :| 0 <= i < |init| && EntryId(init[i]) == id && classify(Message(init[i])) == Ok(Some(ev));
    assert entries[i] == init[i];
  }

  /** Every entry of `entries` is either already seen or gives no event. */
  predicate Covered(classify: Classifier, seen: seq<string>, entries: seq<Entry>)
  {
    forall i :: 0 <= i < |entries| ==> EntryId(entries[i]) in seen || !Emits(classify, Message(entries[i]))
  }

  /** Every id a pass records belongs to an entry that gave an event, so covered entries bound what it records. */
  lemma RecordsCovered(classify: Classifier, seen: seq<string>, full: seq<string>, entries: seq<Entry>)
    requires Covered(classify, full, entries)
    ensures forall k :: |seen| <= k < |LogPass(classify, seen, entries).seen| ==> LogPass(classify, seen, entries).seen[k] in full
  {
    var p := LogPass(classify, seen, entries);
    LogPassOrigins(classify, seen, entries);
    forall k | |seen| <= k < |p.seen|
      ensures p.seen[k] in full
    {
      assert EmittedBy(classify, entries, p.seen[|seen| + (k - |seen|)], p.found[k - |seen|]);
      var i :| 0 <= i < |entries| && EntryId(entries[i]) == p.seen[k] &&
               classify(Message(entries[i])) == Ok(Some(p.found[k - |seen|]));
      assert Emits(classify, Message(entries[i]));
    }
  }

  /** After a pass every one of its entries is covered: the emitting ones have had their ids recorded. */
  lemma {:induction false} LogPassCovers(classify: Classifier, seen: seq<string>, entries: seq<Entry>)
    ensures Covered(classify, LogPass(classify, seen, entries).seen, entries)
    decreases |entries|
  {
    if |entries| > 0 {
      var n := |entries|;
      var init := entries[..n - 1];
      var q := LogPass(classify, seen, init);
      var p := LogPass(classify, seen, entries);
      LogPassCovers(classify, seen, init);
      assert q.seen <= p.seen;
      forall i | 0 <= i < n
        ensures EntryId(entries[i]) in p.seen || !Emits(classify, Message(entries[i]))
      {
        if i < n - 1 {
          assert entries[i] == init[i];
          if EntryId(init[i]) in q.seen {
            var j :| 0 <= j < |q.seen| && q.seen[j] == EntryId(init[i]);
            assert p.seen[j] == q.seen[j];
          }
        }
      }
    }
  }

  /** Recording more ids keeps entries covered. */
  lemma CoveredGrows(classify: Classifier, seen: seq<string>, more: seq<string>, entries: seq<Entry>)
    requires Covered(classify, seen, entries) && seen <= more
    ensures Covered(classify, more, entries)
  {
    forall i | 0 <= i < |entries| && EntryId(entries[i]) in seen
      ensures EntryId(entries[i]) in more
    {
      var j :| 0 <= j < |seen| && seen[j] == EntryId(entries[i]);
      assert more[j] == seen[j];
    }
  }

  /** A pass over covered entries finds nothing and records nothing. */
  lemma {:induction false} CoveredPassIsSilent(classify: Classifier, seen: seq<string>, entries: seq<Entry>)
    requires Covered(classify, seen, entries)
    ensures LogPass(classify, seen, entries) == Pass([], seen)
    decreases |entries|
  {
    if |entries| > 0 {
      var init := entries[..|entries| - 1];
      assert forall i :: 0 <= i < |init| ==> init[i] == entries[i];
      CoveredPassIsSilent(classify, seen, init);
    }
  }

  /** Running a collector twice over the same entries: the second run emits nothing and records nothing. */
  lemma RerunIsSilent(classify: Classifier, seen: seq<string>, entries: seq<Entry>)
    ensures var p := LogPass(classify, seen, entries);
      LogPass(classify, p.seen, entries) == Pass([], p.seen)
  {
    LogPassCovers(classify, seen, entries);
    CoveredPassIsSilent(classify, LogPass(classify, seen, entries).seen, entries);
  }
}
