/** When an ack ends the retransmission of an accept. */
module LateAcks {
  import opened Options
  import opened SockAddrs
  import opened WireMsgs
  import opened PortTables
  import opened MapRequests
  import opened Daemons
  import opened Networks
  import opened Handshakes
  import opened TimerBounds

  /** After an ack, the accept it is for is complete if and only if it was before, or an entry is
      still mapped to the address; without one the ack changes nothing. */
  lemma AckCompletesIff(d: Daemon, s: Step, k: nat)
    requires s.AckStep? && Enabled(d, s) && FindReq(d.reqs, s.m.handle, {Accept}, ApAddr(s.m)) == Some(k)
    ensures |Next(d, s).reqs| == |d.reqs|
    ensures Next(d, s).reqs[k].complete <==>
              d.reqs[k].complete || FindMapping(d.table.ports, ApAddr(s.m), false).Some?
    ensures FindMapping(d.table.ports, ApAddr(s.m), false).None? ==> Next(d, s) == d
  {
  }

  /** In every run, an accept whose ack finds the address still mapped is gone after the timer pass
      that follows, and that pass puts nothing on the queue for it. */
  lemma AckEndsAccept(states: seq<Daemon>, steps: seq<Step>, n: nat, k: nat)
    requires IsRun(states, steps) && n + 1 < |steps| && steps[n].AckStep? && steps[n + 1].TimerStep?
    requires FindReq(states[n].reqs, steps[n].m.handle, {Accept}, ApAddr(steps[n].m)) == Some(k)
    requires FindMapping(states[n].table.ports, ApAddr(steps[n].m), false).Some?
    ensures k < |states[n + 1].reqs|
    ensures var before, after := states[n + 1].reqs[..k], states[n + 1].reqs[k + 1..];
            && states[n + 2].reqs == Pass(before) + Pass(after)
            && states[n + 2].pending ==
                 Requeued(after, k + 1, steps[n + 1].failed) + Requeued(before, 0, steps[n + 1].failed)
                 + states[n + 1].pending
  {
    AckCompletesIff(states[n], steps[n], k);
    CompletedInRun(states, steps, n + 1, k);
  }

  // ------------------------------------------------------------ an ack that comes too late

  /** The accepting host after its client has removed the mapping. */
  function Removed(u: Setup): Daemon
    requires Ordinary(u)
  {
    Answered(u).(table := RemoveMapping(OneEntry(Listening(u)), u.bound, u.listener))
  }

  lemma MappingIsRemoved(u: Setup)
    requires Ordinary(u)
    ensures Removed(u).table.ports == []
  {
    assert OneEntry(Listening(u)).ports[..0] == [];
    assert FindSame(OneEntry(Listening(u)).ports, u.bound) == Some(0);
  }

  lemma LateAckIsIgnored(u: Setup)
    requires Ordinary(u)
    ensures Enabled(Removed(u), AckStep(0, Closing(u))) && Next(Removed(u), AckStep(0, Closing(u))) == Removed(u)
  {
    MappingIsRemoved(u);
  }

  function LateWorld(u: Setup): World
    requires Ordinary(u)
  {
    World([Told(u).(pending := []), Removed(u)], {RequestPacket(u)} + {ReplyPacket(u)} + {AckPacket(u)})
  }

  lemma LateWorldIsReachable(u: Setup)
    requires Ordinary(u)
    ensures Reachable(LateWorld(u))
  {
    AckIsOut(u);
    Steps([Told(u).(pending := []), Answered(u)], {RequestPacket(u)} + {ReplyPacket(u)} + {AckPacket(u)}, 1,
          RemoveStep(u.bound, u.listener), Removed(u));
  }

  /** There is a run in which the ack arrives after the mapping was removed and is ignored: the
      accept stays tracked and open, and goes on being sent. */
  lemma LateAck(u: Setup)
    requires Ordinary(u)
    ensures Reachable(LateWorld(u))
    ensures var ws := Deliver(AckPacket(u), u.rest, Closing(u), AckStep(0, Closing(u)));
            CanStep(LateWorld(u), ws) && WorldNext(LateWorld(u), ws) == LateWorld(u)
    ensures |LateWorld(u).hosts[1].reqs| == 1 && LateWorld(u).hosts[1].reqs[0].kind == Accept
    ensures !LateWorld(u).hosts[1].reqs[0].complete
  {
    LateWorldIsReachable(u);
    LateAckIsIgnored(u);
    AckCloses(u);
    CanArrive(LateWorld(u), AckPacket(u), u.rest, AckStep(0, Closing(u)));
    IdleArrival(LateWorld(u), Deliver(AckPacket(u), u.rest, Closing(u), AckStep(0, Closing(u))));
  }
}
