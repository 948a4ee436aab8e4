/** What the foreign master table holds, in terms of the announces received and the time passed. */
module PtpTable {
  import opened Common
  import opened Bmca
  import opened PtpState
  import opened PtpRuns

  // ---------------------------------------------------------------- one step

  predicate From(step: Step, id: PortIdentity) {
    step.Announce? && step.ds.source == id
  }

  predicate SameData(f: Foreign, g: Foreign) {
    f.dataset == g.dataset && f.announces == g.announces && f.blue == g.blue && f.lastSeen == g.lastSeen
  }

  /** An announce in plain words: net 0 counts as primary and sets the dataset; the other net counts
      as blue and sets the dataset only while there is no primary announce. */
  lemma HeardMeans(t: Table, ds: Dataset, net: nat, now: int, id: PortIdentity)
    ensures var u := Heard(t, ds, net, now);
            && (id in u <==> id in t || id == ds.source)
            && (id in t && id != ds.source ==> u[id] == t[id])
            && (id == ds.source ==>
                  var primary, blue := if id in t then t[id].announces else 0, if id in t then t[id].blue else 0;
                  && u[id].announces == primary + (if net == 0 then 1 else 0)
                  && u[id].blue == blue + (if net == 0 then 0 else 1)
                  && u[id].lastSeen == now
                  && u[id].dataset == if net == 0 || primary == 0 then ds else t[id].dataset)
  {
  }

  lemma ReselectData(s: State, best: Option<PortIdentity>, id: PortIdentity)
    requires best.Some? ==> best.value in s.table
    ensures id in Reselect(s, best).table <==> id in s.table
    ensures id in s.table ==> SameData(Reselect(s, best).table[id], s.table[id])
  {
    assert Reselect(s, best).table == Annotated(s.table, best);
  }

  /** Ageing erases what it erases and leaves every other entry's data alone. */
  lemma {:induction false} DroppedData(s: State, drops: seq<PortIdentity>, bests: seq<Option<PortIdentity>>,
                                       id: PortIdentity)
    requires CanDrop(s, drops, bests)
    ensures id in Dropped(s, drops, bests).table <==> id in s.table && id !in drops
    ensures id in Dropped(s, drops, bests).table ==> SameData(Dropped(s, drops, bests).table[id], s.table[id])
    decreases |drops|
  {
    if drops != [] {
      var u := s.(table := s.table - {drops[0]});
      ReselectData(u, bests[0], id);
      DroppedData(Reselect(u, bests[0]), drops[1..], bests[1..], id);
      assert id in drops <==> id == drops[0] || id in drops[1..];
    }
  }

  /** Who is in the table after a step: whoever just announced, and whoever was there, unless the
      domain changed or the timer found its last announce more than six seconds old. */
  lemma PresentIff(r: Run, n: nat, id: PortIdentity)
    requires IsRun(r) && n < |r.steps|
    ensures var t, u, step := r.states[n].table, r.states[n + 1].table, r.steps[n];
            id in u <==> || From(step, id)
                         || (id in t && !step.SetDomain? && (step.Age? ==> step.now - t[id].lastSeen <= 6000))
    ensures var t, u := r.states[n].table, r.states[n + 1].table;
            id in t && id in u && !From(r.steps[n], id) ==> SameData(u[id], t[id])
  {
    assert StepAt(r, n);
    var s := r.states[n];
    match r.steps[n]
    case Announce(ds, net, now, best) =>
      HeardMeans(s.table, ds, net, now, id);
      ReselectData(s.(table := Heard(s.table, ds, net, now)), best, id);
    case Age(now, drops, bests) =>
      DroppedData(s, drops, bests, id);
      assert id in drops <==> Expired(s.table, now, id);
    case _ =>
  }

  lemma AnnouncedData(r: Run, n: nat, id: PortIdentity)
    requires IsRun(r) && n < |r.steps| && From(r.steps[n], id)
    ensures id in r.states[n + 1].table
    ensures var t, f, step := r.states[n].table, r.states[n + 1].table[id], r.steps[n];
            var primary, blue := if id in t then t[id].announces else 0, if id in t then t[id].blue else 0;
            && f.announces == primary + (if step.net == 0 then 1 else 0)
            && f.blue == blue + (if step.net == 0 then 0 else 1)
            && f.lastSeen == step.now
            && f.dataset == if step.net == 0 || primary == 0 then step.ds else t[id].dataset
  {
    assert StepAt(r, n);
    var s, step := r.states[n], r.steps[n];
    HeardMeans(s.table, step.ds, step.net, step.now, id);
    ReselectData(s.(table := Heard(s.table, step.ds, step.net, step.now)), step.best, id);
  }

  // ---------------------------------------------------------------- whole runs

  /** How many of the steps announce id on the primary net, or on the other one. */
  function Announces(steps: seq<Step>, id: PortIdentity, primary: bool): nat {
    if steps == [] then 0
    else
      var last := steps[|steps| - 1];
      Announces(steps[..|steps| - 1], id, primary) + (if From(last, id) && (last.net == 0 <==> primary) then 1 else 0)
  }

  lemma AnnouncesMore(r: Run, b: nat, n: nat, id: PortIdentity, primary: bool)
    requires b <= n < |r.steps|
    ensures Announces(r.steps[b..n + 1], id, primary)
            == Announces(r.steps[b..n], id, primary)
               + (if From(r.steps[n], id) && (r.steps[n].net == 0 <==> primary) then 1 else 0)
  {
    assert r.steps[b..n + 1][..n - b] == r.steps[b..n];
  }

  /** The latest announce of id among the steps from b to n. */
  ghost predicate Latest(r: Run, b: int, n: int, id: PortIdentity, k: int)
    requires 0 <= b <= n <= |r.steps|
  {
    b <= k < n && From(r.steps[k], id) && forall j :: k < j < n ==> !From(r.steps[j], id)
  }

  /** The latest one on the primary net. */
  ghost predicate LatestPrimary(r: Run, b: int, n: int, id: PortIdentity, k: int)
    requires 0 <= b <= n <= |r.steps|
  {
    && b <= k < n && From(r.steps[k], id) && r.steps[k].net == 0
    && forall j :: k < j < n ==> !(From(r.steps[j], id) && r.steps[j].net == 0)
  }

  /** The entry has been in the table since step b created it. */
  ghost predicate Since(r: Run, b: int, n: int, id: PortIdentity)
    requires 0 <= b < n < |r.states| && |r.states| == |r.steps| + 1
  {
    id !in r.states[b].table && From(r.steps[b], id) && forall m :: b < m <= n ==> id in r.states[m].table
  }

  /** Every entry of the table, in every state of every run, in terms of the announces received since
      it was created: how many came on each net, when the latest came, and which dataset it shows. */
  lemma {:induction false} EntryMeans(r: Run, n: nat, id: PortIdentity) returns (b: nat, latest: nat, shown: nat)
    requires IsRun(r) && n < |r.states| && id in r.states[n].table
    ensures b < n && Since(r, b, n, id)
    ensures r.states[n].table[id].announces == Announces(r.steps[b..n], id, true)
    ensures r.states[n].table[id].blue == Announces(r.steps[b..n], id, false)
    ensures Latest(r, b, n, id, latest) && r.states[n].table[id].lastSeen == r.steps[latest].now
    ensures if r.states[n].table[id].announces > 0 then LatestPrimary(r, b, n, id, shown) else shown == latest
    ensures From(r.steps[shown], id) && r.states[n].table[id].dataset == r.steps[shown].ds
  {
    assert n > 0;
    var m := n - 1;
    PresentIff(r, m, id);
    if id !in r.states[m].table {
      b, latest, shown := m, m, m;
      AnnouncedData(r, m, id);
      assert r.steps[m..m] == [];
    } else {
      b, latest, shown := EntryMeans(r, m, id);
      if From(r.steps[m], id) {
        AnnouncedData(r, m, id);
        latest := m;
        if r.steps[m].net == 0 || r.states[m].table[id].announces == 0 {
          shown := m;
        }
      }
    }
    AnnouncesMore(r, b, m, id, true);
    AnnouncesMore(r, b, m, id, false);
  }

  /** A selected master has been announced at least twice on the primary net since it came into the
      table; announces on the other net do not count. */
  lemma SelectedAnnouncedTwice(r: Run, n: nat) returns (b: nat)
    requires IsRun(r) && n < |r.states| && r.states[n].selected.Some?
    ensures var id := r.states[n].selected.value;
            b < n && Since(r, b, n, id) && Announces(r.steps[b..n], id, true) >= 2
  {
    var s := r.states[n];
    var id := s.selected.value;
    SelectedIsElected(r, n);
    var order :| Enumerates(order, s.table.Keys) && Scan(s.table, order) == s.selected;
    ScanQualified(s.table, order);
    var latest, shown;
    b, latest, shown := EntryMeans(r, n, id);
  }
}
