/**
 A run of the two programs that ends at the exit on a full ack buffer: while the slave's
 window is stuck it sends no new frame, so nothing leaves its ack buffer, and every time
 the master resends a frame that is never acknowledged another entry joins it.
 */
module AckOverflow {
  import opened SeqNum
  import opened TileLinkMsg
  import opened EndpointSpec
  import opened System
  import opened LoopTurn
  import opened NodeTurn
  import opened NodeCore
  import opened StaleAck

  function Sixes(i: nat): seq<int> {
    seq(i, _ => 6)
  }

  /** The slave after i duplicates of frame 6, its own four frames resent as often. */
  function SlaveDup(i: nat): Core {
    Bare(9, 7, SlaveRetx(4, PERIOD * i), Sixes(i), [], ONE_FLIT, 1020, false, false, PERIOD * i, Msgs(4), [MSG])
  }

  /** The same after its timeout. */
  function SlaveResent(i: nat): Core {
    SlaveDup(i).(retx := SlaveRetx(4, PERIOD * (i + 1)), now := PERIOD * (i + 1), ackOnlySent := true)
  }

  ghost predicate Duplicated(s: System, i: nat) {
    Now(true, s, MasterSent(PERIOD * i), SlaveDup(i), [], [])
  }

  lemma SlaveResends(i: nat)
    ensures Takes(SlaveDup(i), PERIOD * (i + 1), None, SlaveResent(i), [AckOnlyOf(SlaveDup(i))] + Late(6))
  {
    LateTakes(SlaveDup(i), PERIOD * (i + 1), PERIOD * i);
  }

  lemma SlaveQueues(i: nat)
    requires i < ACK_CAPACITY
    ensures Takes(SlaveResent(i), PERIOD * (i + 1), Some(MasterFrame(4)), SlaveDup(i + 1), [])
  {
    SlaveSlides(PERIOD * (i + 1));
    assert Sixes(i) + [6] == Sixes(i + 1);
  }

  /** Both ends time out; the slave's frames are lost, the master's is on its way. */
  lemma SlaveLoses(s: System, i: nat, c: Core, out: seq<Frame>) returns (t: System)
    requires Now(true, s, c, SlaveDup(i), out, [])
    ensures Connects(s, t) && Now(true, t, c, SlaveResent(i), out, [])
  {
    SlaveResends(i);
    var frames := [AckOnlyOf(SlaveDup(i))] + Late(6);
    var u := TurnMove(false, s, SlaveDup(i), c, [], out, PERIOD * (i + 1), false, SlaveResent(i), frames);
    assert [] + frames == frames && frames[5..] == [];
    t := DropMove(true, u, c, SlaveResent(i), out, frames, 5);
    ConnectsOn(s, u, t);
  }

  lemma Resending(s: System, i: nat) returns (t: System)
    requires Duplicated(s, i)
    ensures Connects(s, t)
    ensures Now(true, t, MasterSent(PERIOD * (i + 1)), SlaveResent(i), [MasterFrame(4)], [])
  {
    MasterResends(PERIOD * i);
    var now := PERIOD * (i + 1);
    var u := TurnMove(true, s, MasterSent(PERIOD * i), SlaveDup(i), [], [], now, false, MasterSent(now), [MasterFrame(4)]);
    t := SlaveLoses(u, i, MasterSent(now), [MasterFrame(4)]);
    ConnectsOn(s, u, t);
  }

  lemma OneMoreEntry(s: System, i: nat) returns (t: System)
    requires i < ACK_CAPACITY && Duplicated(s, i)
    ensures Connects(s, t) && Duplicated(t, i + 1)
  {
    var u := Resending(s, i);
    SlaveQueues(i);
    var now := PERIOD * (i + 1);
    t := TurnMove(false, u, SlaveResent(i), MasterSent(now), [], [MasterFrame(4)], now, true, SlaveDup(i + 1), []);
    ConnectsOn(s, u, t);
  }

  lemma {:induction false} Entries(s: System, i: nat) returns (t: System)
    requires i <= ACK_CAPACITY && Duplicated(s, 0)
    ensures Connects(s, t) && Duplicated(t, i)
    decreases i
  {
    t := s;
    ConnectsSelf(s);
    if i > 0 {
      var j: nat := i - 1;
      var u := Entries(s, j);
      t := OneMoreEntry(u, j);
      ConnectsOn(s, u, t);
    }
  }

  lemma FirstEntry() returns (t: System)
    ensures Connects(Initial(), t) && Duplicated(t, 0)
  {
    var s := Filled(4);
    t := FirstFrame(s);
    ConnectsOn(Initial(), s, t);
    assert SlaveHas([]) == SlaveDup(0);
  }

  lemma FullHalts(x: Node, f: Frame)
    requires CoreOf(x) == SlaveResent(ACK_CAPACITY) && f == MasterFrame(4)
    ensures EndpointSpec.Receive(Wrapping, x.ep, f).Halted?
  {
    assert |AckNums(x.ep.acks)| == ACK_CAPACITY;
  }

  /** Whole turns of the two loops, with frames lost and none reordered, can come to a frame
      whose arrival ends the slave's program: the ack buffer is not bounded by the protocol. */
  lemma ExitReached() returns (es: seq<Event>, w: System)
    ensures WholeTurns(es) && Run(Wrapping, Initial(), AllSteps(es)) == Some(w)
    ensures PlayAll(View(Initial()), es) == Some(View(w))
    ensures w.ab != [] && EndpointSpec.Receive(Wrapping, w.b.ep, w.ab[0]).Halted?
  {
    var s := FirstEntry();
    var t := Entries(s, ACK_CAPACITY);
    w := Resending(t, ACK_CAPACITY);
    ConnectsOn(Initial(), s, t);
    ConnectsOn(Initial(), t, w);
    es :| WholeTurns(es) && Run(Wrapping, Initial(), AllSteps(es)) == Some(w);
    PlayIsRun(Initial(), es);
    FullHalts(w.b, w.ab[0]);
  }
}
