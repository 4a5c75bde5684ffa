/**
 * The connection snapshots of `parse_port_events` and `parse_vnc_events`:
 * `known_connections` maps a port key to the ids seen on the previous poll.
 * Every id not yet known gives one event and is appended; afterwards the list
 * keeps only the ids present in this poll.
 */
module PluginDiff {
  import opened Text
  import opened Events
  import opened PluginClassify
  import opened PluginLsof

  /** `state["known_connections"]`. */
  type Known = map<string, seq<string>>

  /** The snapshots after a poll, and the events found. */
  datatype Scan = Scan(known: Known, found: seq<PluginEvent>)

  /** The ids known under `key`, empty when the key is missing. */
  function Prior(known: Known, key: string): (ids: seq<string>)
    ensures key !in known ==> ids == []
    ensures key in known ==> ids == known[key]
  {
    if key in known then known[key] else []
  }

  /** `current_conns`: the ids of the connections of this poll. */
  function IdSet(conns: seq<LsofConn>): (ids: set<string>)
    ensures forall k :: 0 <= k < |conns| ==> ConnId(conns[k]) in ids
    ensures |conns| == 0 ==> ids == {}
    decreases |conns|
  {
    if |conns| == 0 then {}
    else IdSet(conns[..|conns| - 1]) + {ConnId(conns[|conns| - 1])}
  }

  /** Every id of the set belongs to one of the connections. */
  lemma {:induction false} IdSetMembers(conns: seq<LsofConn>, x: string)
    requires x in IdSet(conns)
    ensures exists k :: 0 <= k < |conns| && ConnId(conns[k]) == x
    decreases |conns|
  {
    var n := |conns|;
    if x != ConnId(conns[n - 1]) {
      IdSetMembers(conns[..n - 1], x);
      var k :| 0 <= k < n - 1 && ConnId(conns[..n - 1][k]) == x;
      assert conns[k] == conns[..n - 1][k];
    }
  }

  /** The id list under the watch's key after some connections, and the events found. */
  datatype Step = Step(ids: seq<string>, found: seq<PluginEvent>)

  /**
   * The loop over the connections of one poll, on the list under the
   * watch's key: an id not yet listed is appended and gives one event.
   */
  function ScanIds(ids: seq<string>, w: Watch, conns: seq<LsofConn>): (s: Step)
    ensures ids <= s.ids
    ensures |s.found| == |s.ids| - |ids|
    decreases |conns|
  {
    if |conns| == 0 then Step(ids, [])
    else
      var s := ScanIds(ids, w, conns[..|conns| - 1]);
      var c := conns[|conns| - 1];
      if ConnId(c) in s.ids then s
      else Step(s.ids + [ConnId(c)], s.found + [Render(w, c)])
  }

  /** `[c for c in ids if c in keep]`. */
  function KeepIn(ids: seq<string>, keep: set<string>): (r: seq<string>)
    ensures forall x :: x in r <==> x in ids && x in keep
    ensures |r| <= |ids|
    decreases |ids|
  {
    if |ids| == 0 then []
    else
      var r := KeepIn(ids[..|ids| - 1], keep);
      assert forall x :: x in ids <==> x in ids[..|ids| - 1] || x == ids[|ids| - 1];
      if ids[|ids| - 1] in keep then r + [ids[|ids| - 1]] else r
  }

  /** Keeping every id of a list gives the list back. */
  lemma {:induction false} KeepAll(ids: seq<string>, keep: set<string>)
    requires forall x :: x in ids ==> x in keep
    ensures KeepIn(ids, keep) == ids
    decreases |ids|
  {
    if |ids| > 0 {
      var init := ids[..|ids| - 1];
      assert forall x :: x in init ==> x in ids;
      KeepAll(init, keep);
      assert ids == init + [ids[|ids| - 1]];
    }
  }

  /** Filtering a list without repeats leaves a list without repeats. */
  lemma {:induction false} KeepInDistinct(ids: seq<string>, keep: set<string>)
    requires Distinct(ids)
    ensures Distinct(KeepIn(ids, keep))
    decreases |ids|
  {
    if |ids| > 0 {
      var n := |ids|;
      var init := ids[..n - 1];
      KeepInDistinct(init, keep);
      var r := KeepIn(init, keep);
      if ids[n - 1] in keep {
        var r2 := r + [ids[n - 1]];
        forall i, j | 0 <= i < j < |r2|
          ensures r2[i] != r2[j]
        {
          if j == |r| {
            assert r2[i] == r[i];
          } else {
            assert r2[i] == r[i] && r2[j] == r[j];
          }
        }
      }
    }
  }

  /**
   * The ids the scan appends: each is new relative to everything listed
   * before it, and together with the listed ones they are exactly the listed
   * ids plus the ids of this poll.
   */
  lemma {:induction false} ScanIdsNew(ids: seq<string>, w: Watch, conns: seq<LsofConn>)
    ensures forall j :: |ids| <= j < |ScanIds(ids, w, conns).ids| ==>
      ScanIds(ids, w, conns).ids[j] !in ScanIds(ids, w, conns).ids[..j]
    ensures forall x :: x in ScanIds(ids, w, conns).ids <==> x in ids || x in IdSet(conns)
    decreases |conns|
  {
    if |conns| > 0 {
      var n := |conns|;
      var init := conns[..n - 1];
      ScanIdsNew(ids, w, init);
      var list := ScanIds(ids, w, init).ids;
      var id := ConnId(conns[n - 1]);
      var after := ScanIds(ids, w, conns).ids;
      if id in list {
        assert after == list;
      } else {
        assert after == list + [id];
        assert after[..|list|] == list;
        forall j | |ids| <= j < |after|
          ensures after[j] !in after[..j]
        {
          if j < |list| {
            assert after[..j] == list[..j];
          }
        }
      }
      assert IdSet(conns) == IdSet(init) + {id};
    }
  }

  /** `e` renders one of the connections, and that connection's id is `id`. */
  predicate RendersOne(w: Watch, conns: seq<LsofConn>, id: string, e: PluginEvent)
  {
    exists i :: 0 <= i < |conns| && ConnId(conns[i]) == id && e == Render(w, conns[i])
  }

  /** A connection of a shorter poll is still one of a longer poll. */
  lemma RendersOneGrows(w: Watch, conns: seq<LsofConn>, n: nat, id: string, e: PluginEvent)
    requires n <= |conns| && RendersOne(w, conns[..n], id, e)
    ensures RendersOne(w, conns, id, e)
  {
    var i :| 0 <= i < n && ConnId(conns[..n][i]) == id && e == Render(w, conns[..n][i]);
    assert conns[..n][i] == conns[i];
  }

  /** Each event found renders a connection whose id is the one appended at the same position. */
  lemma {:induction false} ScanIdsOrigins(ids: seq<string>, w: Watch, conns: seq<LsofConn>)
    ensures forall k :: 0 <= k < |ScanIds(ids, w, conns).found| ==>
      RendersOne(w, conns, ScanIds(ids, w, conns).ids[|ids| + k], ScanIds(ids, w, conns).found[k])
    decreases |conns|
  {
    if |conns| > 0 {
      var n := |conns|;
      var init := conns[..n - 1];
      ScanIdsOrigins(ids, w, init);
      var s := ScanIds(ids, w, init);
      var t := ScanIds(ids, w, conns);
      var c := conns[n - 1];
      if ConnId(c) in s.ids {
        assert t == s;
        forall k | 0 <= k < |t.found|
          ensures RendersOne(w, conns, t.ids[|ids| + k], t.found[k])
        {
          RendersOneGrows(w, conns, n - 1, s.ids[|ids| + k], s.found[k]);
        }
      } else {
        assert t == Step(s.ids + [ConnId(c)], s.found + [Render(w, c)]);
        forall k | 0 <= k < |t.found|
          ensures RendersOne(w, conns, t.ids[|ids| + k], t.found[k])
        {
          if k < |s.found| {
            assert t.ids[|ids| + k] == s.ids[|ids| + k] && t.found[k] == s.found[k];
            RendersOneGrows(w, conns, n - 1, s.ids[|ids| + k], s.found[k]);
          } else {
            assert ConnId(conns[n - 1]) == t.ids[|ids| + k] && t.found[k] == Render(w, conns[n - 1]);
          }
        }
      }
    }
  }

  /** A scan over connections whose ids are all listed finds nothing and appends nothing. */
  lemma {:induction false} ScanOfKnownIds(ids: seq<string>, w: Watch, conns: seq<LsofConn>)
    requires forall k :: 0 <= k < |conns| ==> ConnId(conns[k]) in ids
    ensures ScanIds(ids, w, conns) == Step(ids, [])
    decreases |conns|
  {
    if |conns| > 0 {
      var init := conns[..|conns| - 1];
      assert forall k :: 0 <= k < |init| ==> init[k] == conns[k];
      ScanOfKnownIds(ids, w, init);
    }
  }

  /**
   * One poll of one watch: the scan, which creates the key's list when it
   * meets a first connection, then `known[port_key] = [c for c in
   * known[port_key] if c in current_conns]` when the key exists. No other key
   * is touched.
   */
  function PortDiff(known: Known, w: Watch, conns: seq<LsofConn>): (d: Scan)
    ensures forall k :: k != WatchKey(w) ==> (k in d.known <==> k in known)
    ensures forall k :: k != WatchKey(w) && k in known ==> d.known[k] == known[k]
    ensures WatchKey(w) in d.known <==> WatchKey(w) in known || |conns| > 0
    ensures d.found == ScanIds(Prior(known, WatchKey(w)), w, conns).found
  {
    var key := WatchKey(w);
    var s := ScanIds(Prior(known, key), w, conns);
    if key in known || |conns| > 0 then Scan(known[key := KeepIn(s.ids, IdSet(conns))], s.found)
    else Scan(known, [])
  }

  /** The ids appended during the poll, in the order they were met. */
  function FreshIds(known: Known, w: Watch, conns: seq<LsofConn>): (ids: seq<string>)
    ensures |ids| == |PortDiff(known, w, conns).found|
  {
    var prior := Prior(known, WatchKey(w));
    ScanIds(prior, w, conns).ids[|prior|..]
  }

  /**
   * After a poll the list under the watch's key holds exactly the ids of this
   * poll: ids that vanished are forgotten, new ones are remembered.
   */
  lemma DiffKeepsCurrent(known: Known, w: Watch, conns: seq<LsofConn>)
    ensures WatchKey(w) in PortDiff(known, w, conns).known ==>
      forall x :: x in PortDiff(known, w, conns).known[WatchKey(w)] <==> x in IdSet(conns)
  {
    ScanIdsNew(Prior(known, WatchKey(w)), w, conns);
  }

  /** The list under the watch's key stays free of repeats. */
  lemma DiffKeepsDistinct(known: Known, w: Watch, conns: seq<LsofConn>)
    requires Distinct(Prior(known, WatchKey(w)))
    ensures Distinct(Prior(PortDiff(known, w, conns).known, WatchKey(w)))
  {
    var prior := Prior(known, WatchKey(w));
    ScanIdsNew(prior, w, conns);
    var after := ScanIds(prior, w, conns).ids;
    forall i, j | 0 <= i < j < |after|
      ensures after[i] != after[j]
    {
      if j < |prior| {
        assert after[i] == prior[i] && after[j] == prior[j];
      } else {
        assert after[i] in after[..j];
      }
    }
    KeepInDistinct(after, IdSet(conns));
  }

  /** Items appended one at a time, each new when appended, are pairwise different and new to the prefix. */
  lemma AppendedAreNew(prior: seq<string>, after: seq<string>)
    requires prior <= after
    requires forall j :: |prior| <= j < |after| ==> after[j] !in after[..j]
    ensures Distinct(after[|prior|..])
    ensures forall x :: x in after[|prior|..] ==> x !in prior
  {
    var m := |prior|;
    var tail := after[m..];
    forall i, j | 0 <= i < j < |tail|
      ensures tail[i] != tail[j]
    {
      assert tail[i] == after[m + i] && tail[j] == after[m + j];
      assert after[m + i] in after[..m + j];
    }
    forall x | x in tail
      ensures x !in prior
    {
      var j :| 0 <= j < |tail| && tail[j] == x;
      assert after[m + j] == x;
      assert after[..m + j][..m] == prior;
    }
  }

  /** The new ids are pairwise different, and they are exactly this poll's ids that were not listed before. */
  lemma DiffFreshIds(known: Known, w: Watch, conns: seq<LsofConn>)
    ensures Distinct(FreshIds(known, w, conns))
    ensures forall x :: x in FreshIds(known, w, conns) <==> x in IdSet(conns) && x !in Prior(known, WatchKey(w))
  {
    var prior := Prior(known, WatchKey(w));
    ScanIdsNew(prior, w, conns);
    var after := ScanIds(prior, w, conns).ids;
    AppendedAreNew(prior, after);
    assert after == prior + FreshIds(known, w, conns);
  }

  /**
   * Exactly one event per new id: the event at each position renders a
   * connection carrying the new id at that position.
   */
  lemma DiffEmitsFresh(known: Known, w: Watch, conns: seq<LsofConn>)
    ensures forall k :: 0 <= k < |PortDiff(known, w, conns).found| ==>
      RendersOne(w, conns, FreshIds(known, w, conns)[k], PortDiff(known, w, conns).found[k])
  {
    var prior := Prior(known, WatchKey(w));
    ScanIdsOrigins(prior, w, conns);
    var s := ScanIds(prior, w, conns);
    assert forall k :: 0 <= k < |s.found| ==> FreshIds(known, w, conns)[k] == s.ids[|prior| + k];
  }

  /**
   * The list under the watch's key already matches this poll's connections:
   * the key is missing and there are none, or it lists exactly their ids.
   */
  ghost predicate Settled(known: Known, w: Watch, conns: seq<LsofConn>)
  {
    if WatchKey(w) in known then forall x :: x in known[WatchKey(w)] <==> x in IdSet(conns)
    else |conns| == 0
  }

  /** After a poll the watch is settled on that poll's connections. */
  lemma DiffSettles(known: Known, w: Watch, conns: seq<LsofConn>)
    ensures Settled(PortDiff(known, w, conns).known, w, conns)
  {
    DiffKeepsCurrent(known, w, conns);
  }

  /** Polling a settled watch again with the same connections emits nothing and changes nothing. */
  lemma SettledIsFixpoint(known: Known, w: Watch, conns: seq<LsofConn>)
    requires Settled(known, w, conns)
    ensures PortDiff(known, w, conns) == Scan(known, [])
  {
    var key := WatchKey(w);
    if key in known {
      ScanOfKnownIds(known[key], w, conns);
      KeepAll(known[key], IdSet(conns));
      assert known[key := known[key]] == known;
    }
  }

  /** A second identical poll of one watch emits nothing and leaves the snapshots as they are. */
  lemma SecondDiffIsSilent(known: Known, w: Watch, conns: seq<LsofConn>)
    ensures PortDiff(PortDiff(known, w, conns).known, w, conns) == Scan(PortDiff(known, w, conns).known, [])
  {
    DiffSettles(known, w, conns);
    SettledIsFixpoint(PortDiff(known, w, conns).known, w, conns);
  }

  /** The connections read for a port from the output lines `lsof` prints for it, once the header and `launchd ` lines are filtered out. */
  function Conns(lsof: nat -> seq<string>, port: nat): (conns: seq<LsofConn>)
    ensures forall k :: 0 <= k < |conns| ==> conns[k].port == port
  {
    PortConnections(lsof(port), port)
  }

  /** The loop of `parse_port_events` over `PORTS_TO_MONITOR`, one watch per port, events in port order. */
  function PortsPass(known: Known, ports: seq<nat>, lsof: nat -> seq<string>): (s: Scan)
    ensures forall k :: !IsDecimal(k) ==> (k in s.known <==> k in known)
    ensures forall k :: !IsDecimal(k) && k in known ==> s.known[k] == known[k]
    decreases |ports|
  {
    if |ports| == 0 then Scan(known, [])
    else
      var s := PortsPass(known, ports[..|ports| - 1], lsof);
      var p := ports[|ports| - 1];
      var d := PortDiff(s.known, PortWatch(p), Conns(lsof, p));
      Scan(d.known, s.found + d.found)
  }

  /** Settledness of a watch depends only on the list under its own key. */
  lemma SettledFrame(known: Known, other: Known, w: Watch, conns: seq<LsofConn>)
    requires Settled(known, w, conns)
    requires WatchKey(w) in known <==> WatchKey(w) in other
    requires WatchKey(w) in known ==> other[WatchKey(w)] == known[WatchKey(w)]
    ensures Settled(other, w, conns)
  {
  }

  /** A poll of one watch leaves every other watch as settled as it was. */
  lemma DiffKeepsOthersSettled(known: Known, w: Watch, conns: seq<LsofConn>, v: Watch, others: seq<LsofConn>)
    requires v != w && Settled(known, v, others)
    ensures Settled(PortDiff(known, w, conns).known, v, others)
  {
    WatchKeysDiffer(v, w);
    SettledFrame(known, PortDiff(known, w, conns).known, v, others);
  }

  /** After the ports loop every configured port is settled on the connections `lsof` reports for it. */
  lemma {:induction false} PortsPassSettles(known: Known, ports: seq<nat>, lsof: nat -> seq<string>)
    ensures forall p :: p in ports ==> Settled(PortsPass(known, ports, lsof).known, PortWatch(p), Conns(lsof, p))
    decreases |ports|
  {
    if |ports| > 0 {
      var n := |ports|;
      var init := ports[..n - 1];
      PortsPassSettles(known, init, lsof);
      var s := PortsPass(known, init, lsof);
      var last := ports[n - 1];
      var d := PortDiff(s.known, PortWatch(last), Conns(lsof, last));
      assert PortsPass(known, ports, lsof).known == d.known;
      forall p | p in ports
        ensures Settled(d.known, PortWatch(p), Conns(lsof, p))
      {
        if p == last {
          DiffSettles(s.known, PortWatch(last), Conns(lsof, last));
        } else {
          assert p in init by {
            var i :| 0 <= i < n && ports[i] == p;
            assert init[i] == p;
          }
          DiffKeepsOthersSettled(s.known, PortWatch(last), Conns(lsof, last), PortWatch(p), Conns(lsof, p));
        }
      }
    }
  }

  /** When every configured port is settled, the ports loop emits nothing and changes nothing. */
  lemma {:induction false} SettledPortsAreSilent(known: Known, ports: seq<nat>, lsof: nat -> seq<string>)
    requires forall p :: p in ports ==> Settled(known, PortWatch(p), Conns(lsof, p))
    ensures PortsPass(known, ports, lsof) == Scan(known, [])
    decreases |ports|
  {
    if |ports| > 0 {
      var n := |ports|;
      var init := ports[..n - 1];
      assert forall p :: p in init ==> p in ports;
      SettledPortsAreSilent(known, init, lsof);
      SettledIsFixpoint(known, PortWatch(ports[n - 1]), Conns(lsof, ports[n - 1]));
    }
  }
}
