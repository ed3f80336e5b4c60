/** Why a query is rejected: at some moment after it was started, the host it asked had no entry
    for the address it asked about. */
module Rejections {
  import opened Options
  import opened SockAddrs
  import opened WireMsgs
  import opened PortTables
  import opened MapRequests
  import opened Daemons
  import opened Networks

  /** Host `asked` turned down query `handle` of host `asker`. */
  datatype Refusal = Refusal(asker: nat, handle: Handle, asked: nat)

  /** In world `w`, the query has been started and the host it asks has no entry for it. */
  ghost predicate Unmapped(w: World, f: Refusal) {
    && f.asker < |w.hosts| && f.asked < |w.hosts| && f.handle in w.hosts[f.asker].issued
    && var q := w.hosts[f.asker].issued[f.handle];
       && Family(q.parms.ipVer).Some?
       && FindMapping(w.hosts[f.asked].table.ports, ApAddr(q.parms), true).None?
  }

  /** That was so at some moment up to world `n`. */
  ghost predicate Founded(worlds: seq<World>, n: nat, f: Refusal)
    requires n < |worlds|
  {
    exists k :: 0 <= k <= n && Unmapped(worlds[k], f)
  }

  // ------------------------------------------------------------ one daemon

  /** A reject on the queue, and a rejection reported, are among the refusals `known`; nothing
      that is kept for retransmission is a reject. */
  ghost predicate Backed(d: Daemon, h: nat, known: iset<Refusal>) {
    && (forall i :: 0 <= i < |d.pending| && d.pending[i].parms.mt == MT_REJ ==>
          Refusal(d.pending[i].to, d.pending[i].parms.handle, h) in known)
    && (forall i :: 0 <= i < |d.reqs| && d.reqs[i].msg.Some? ==> d.reqs[i].msg.value.parms.mt != MT_REJ)
    && (forall i :: 0 <= i < |d.reports| && d.reports[i].kind == Rejected ==>
          Refusal(h, d.reports[i].handle, d.reports[i].peer) in known)
  }

  lemma TimerBacked(d: Daemon, s: Step, h: nat, known: iset<Refusal>)
    requires s.TimerStep? && Backed(d, h, known)
    ensures Backed(Next(d, s), h, known)
  {
    var d' := Next(d, s);
    forall i | 0 <= i < |d'.pending| && d'.pending[i].parms.mt == MT_REJ
      ensures Refusal(d'.pending[i].to, d'.pending[i].parms.handle, h) in known
    {
      ResendOrigin(d.reqs, d.pending, s.failed, d'.pending[i]);
    }
    forall i | 0 <= i < |d'.reqs| && d'.reqs[i].msg.Some? ensures d'.reqs[i].msg.value.parms.mt != MT_REJ {
      var j := PassOrigin(d.reqs, i);
    }
  }

  lemma QueryBacked(d: Daemon, s: Step, h: nat, known: iset<Refusal>)
    requires s.QueryStep? && Enabled(d, s) && Backed(d, h, known)
    ensures Backed(Next(d, s), h, known)
  {
  }

  lemma LocalBacked(d: Daemon, s: Step, h: nat, known: iset<Refusal>)
    requires IsLocal(s) && Enabled(d, s) && Backed(d, h, known)
    ensures Backed(Next(d, s), h, known)
  {
    if s.TimerStep? { TimerBacked(d, s, h, known); }
    if s.QueryStep? { QueryBacked(d, s, h, known); }
  }

  /** A request is turned down only if no entry is found. */
  lemma RequestBacked(d: Daemon, s: Step, h: nat, known: iset<Refusal>)
    requires s.RequestStep? && Enabled(d, s) && Backed(d, h, known)
    requires FindMapping(d.table.ports, ApAddr(s.m), true).None? ==> Refusal(s.from, s.m.handle, h) in known
    ensures Backed(Next(d, s), h, known)
  {
  }

  lemma AcceptBacked(d: Daemon, s: Step, h: nat, known: iset<Refusal>)
    requires s.AcceptStep? && Enabled(d, s) && Backed(d, h, known)
    ensures Backed(Next(d, s), h, known)
  {
  }

  /** A rejection is reported only on receipt of a reject for the query. */
  lemma RejectBacked(d: Daemon, s: Step, h: nat, known: iset<Refusal>)
    requires (s.RejectStep? || s.AckStep?) && Enabled(d, s) && Backed(d, h, known)
    requires s.RejectStep? ==> Refusal(h, s.m.handle, s.from) in known
    ensures Backed(Next(d, s), h, known)
  {
  }

  // ------------------------------------------------------------ all of them

  ghost predicate AllBacked(w: World, known: iset<Refusal>) {
    && (forall h :: 0 <= h < |w.hosts| ==> Backed(w.hosts[h], h, known))
    && (forall p :: p in w.net && p.parms.mt == MT_REJ ==> Refusal(p.to, p.parms.handle, p.from) in known)
  }

  /** A request that finds no entry is a refusal in this very world. */
  lemma RefusedNow(w: World, p: Packet)
    requires WorldInv(w) && p in w.net && p.to < |w.hosts| && p.parms.mt == MT_REQ
    requires FindMapping(w.hosts[p.to].table.ports, ApAddr(p.parms), true).None?
    ensures Unmapped(w, Refusal(p.from, p.parms.handle, p.to))
  {
    assert GoodMsg(w.hosts, p.from, p.to, p.parms, p.port);
  }

  lemma ArrivalBacked(w: World, s: WorldStep, known: iset<Refusal>)
    requires WorldInv(w) && CanStep(w, s) && s.Deliver? && AllBacked(w, known)
    requires forall f :: Unmapped(w, f) ==> f in known
    ensures Backed(Next(w.hosts[s.packet.to], s.step), s.packet.to, known)
  {
    var p, h, d := s.packet, s.packet.to, w.hosts[s.packet.to];
    assert GoodMsg(w.hosts, p.from, p.to, p.parms, p.port);
    WhatArrives(p, s.rest, s.stale, s.step);
    if s.step.RequestStep? {
      if FindMapping(d.table.ports, ApAddr(p.parms), true).None? { RefusedNow(w, p); }
      RequestBacked(d, s.step, h, known);
    } else if s.step.AcceptStep? {
      AcceptBacked(d, s.step, h, known);
    } else {
      RejectBacked(d, s.step, h, known);
    }
  }

  /** Replacing one host, and adding at most a message of its queue, keeps the rest. */
  lemma ReplaceBacked(w: World, h: nat, d: Daemon, net: set<Packet>, known: iset<Refusal>)
    requires h < |w.hosts| && AllBacked(w, known) && Backed(d, h, known)
    requires forall p :: p in net && p !in w.net ==> w.hosts[h].pending != [] && Carries(p, h, w.hosts[h].pending[0])
    ensures AllBacked(World(w.hosts[h := d], net), known)
  {
    forall p | p in net && p.parms.mt == MT_REJ ensures Refusal(p.to, p.parms.handle, p.from) in known {
      if p !in w.net { assert Carries(p, h, w.hosts[h].pending[0]); }
    }
  }

  ghost predicate Carries(p: Packet, h: nat, m: SendMsg) {
    p.from == h && p.to == m.to && p.parms == m.parms
  }

  lemma StepBacked(w: World, s: WorldStep, known: iset<Refusal>)
    requires WorldInv(w) && CanStep(w, s) && AllBacked(w, known)
    requires forall f :: Unmapped(w, f) ==> f in known
    ensures AllBacked(WorldNext(w, s), known)
  {
    var w' := WorldNext(w, s);
    var h := if s.Local? then s.host else s.packet.to;
    if s.Local? { LocalBacked(w.hosts[h], s.step, h, known); } else { ArrivalBacked(w, s, known); }
    ReplaceBacked(w, h, Next(w.hosts[h], s.step), w'.net, known);
  }

  lemma BackedInMore(w: World, known: iset<Refusal>, more: iset<Refusal>)
    requires AllBacked(w, known) && known <= more
    ensures AllBacked(w, more)
  {
  }

  lemma StartBacked(w: World, known: iset<Refusal>)
    requires w.net == {} && forall h :: 0 <= h < |w.hosts| ==> w.hosts[h] == INIT
    ensures AllBacked(w, known)
  {
  }

  ghost function Known(worlds: seq<World>, n: nat): iset<Refusal>
    requires n < |worlds|
  {
    iset f: Refusal | Founded(worlds, n, f)
  }

  lemma KnownGrows(worlds: seq<World>, n: nat)
    requires n + 1 < |worlds|
    ensures Known(worlds, n) <= Known(worlds, n + 1)
  {
    forall f | f in Known(worlds, n) ensures f in Known(worlds, n + 1) {
      var k :| 0 <= k <= n && Unmapped(worlds[k], f);
      assert 0 <= k <= n + 1;
    }
  }

  lemma UnmappedIsKnown(worlds: seq<World>, n: nat)
    requires n < |worlds|
    ensures forall f :: Unmapped(worlds[n], f) ==> f in Known(worlds, n)
  {
  }

  lemma {:induction false} RunBacked(worlds: seq<World>, steps: seq<WorldStep>, n: nat)
    requires IsWorldRun(worlds, steps) && n <= |steps|
    ensures AllBacked(worlds[n], Known(worlds, n))
  {
    if n == 0 {
      StartBacked(worlds[0], Known(worlds, 0));
    } else {
      var m := n - 1;
      RunBacked(worlds, steps, m);
      WorldRunKeeps(worlds, steps, m);
      UnmappedIsKnown(worlds, m);
      StepBacked(worlds[m], steps[m], Known(worlds, m));
      KnownGrows(worlds, m);
      BackedInMore(worlds[n], Known(worlds, m), Known(worlds, n));
    }
  }

  /** In every run, a rejection reported by host `h` goes back to a moment `k`, after its query
      was started, at which no entry of the host that was asked answered the address. */
  lemma RejectionHasReason(worlds: seq<World>, steps: seq<WorldStep>, n: nat, h: nat, r: Report) returns (k: nat)
    requires IsWorldRun(worlds, steps) && n <= |steps| && h < |worlds[n].hosts|
    requires r in worlds[n].hosts[h].reports && r.kind == Rejected
    ensures k <= n && Unmapped(worlds[k], Refusal(h, r.handle, r.peer))
  {
    RunBacked(worlds, steps, n);
    var f := Refusal(h, r.handle, r.peer);
    var i :| 0 <= i < |worlds[n].hosts[h].reports| && worlds[n].hosts[h].reports[i] == r;
    assert f in Known(worlds, n);
    k :| 0 <= k <= n && Unmapped(worlds[k], f);
  }

  /** Hence a query about an address that its host kept mapped ever since the query was started
      is never rejected. */
  lemma MappedIsNotRejected(worlds: seq<World>, steps: seq<WorldStep>, n: nat, h: nat, r: Report)
    requires IsWorldRun(worlds, steps) && n <= |steps| && h < |worlds[n].hosts|
    requires r in worlds[n].hosts[h].reports && r.kind != RemoteInfo
    requires forall k :: 0 <= k <= n ==> !Unmapped(worlds[k], Refusal(h, r.handle, r.peer))
    ensures r.kind == Accepted
  {
    if r.kind == Rejected {
      var k := RejectionHasReason(worlds, steps, n, h, r);
    }
  }
}
