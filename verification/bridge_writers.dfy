/** Writer threads: every frame one takes out of the outbox is in its hand, crosses, is replaced because it is too
    large, or is lost; and it is lost exactly when its connection's socket has stopped taking writes. */
module BridgeWriters {
  import opened Wrappers
  import opened Pending
  import opened Bridge
  import opened BridgeFields
  import A = AddOn
  import S = BridgeSlot
  import T = BridgeTruth

  /** What came over the wire for one pull. */
  function Arrival(p: Pull): seq<A.Frame>
  {
    if p.fate.Crossed? then [p.frame] else if p.fate.TooBig? then Shortened(p.frame) else []
  }

  function Arrivals(pulls: seq<Pull>, sid: SessionId): seq<A.Frame>
  {
    if pulls == [] then []
    else var last := pulls[|pulls| - 1];
      Arrivals(pulls[..|pulls| - 1], sid) + if last.conn == sid then Arrival(last) else []
  }

  /** The pulls of one Blender's writers, in order. */
  function Mine(pulls: seq<Pull>, p: PeerId): seq<Pull>
  {
    if pulls == [] then []
    else var last := pulls[|pulls| - 1];
      Mine(pulls[..|pulls| - 1], p) + if last.peer == p then [last] else []
  }

  function FramesOf(pulls: seq<Pull>): (r: seq<A.Frame>)
    ensures |r| == |pulls| && forall k | 0 <= k < |r| :: r[k] == pulls[k].frame
  {
    seq(|pulls|, k requires 0 <= k < |pulls| => pulls[k].frame)
  }

  /** What is left of a sequence when some of its head is gone. */
  predicate Suffix<T(==)>(s: seq<T>, whole: seq<T>)
  {
    |s| <= |whole| && s == whole[|whole| - |s|..]
  }

  lemma SuffixOfSuffix<T>(a: seq<T>, b: seq<T>, c: seq<T>)
    requires Suffix(a, b) && Suffix(b, c)
    ensures Suffix(a, c)
  {
  }

  lemma SuffixRest<T>(s: seq<T>)
    requires s != []
    ensures Suffix(s[1..], s)
  {
  }

  lemma SuffixGrows<T>(s: seq<T>, whole: seq<T>, more: seq<T>)
    requires Suffix(s, whole)
    ensures Suffix(s + more, whole + more)
  {
  }

  lemma NoneIsSuffix<T>(whole: seq<T>)
    ensures Suffix([], whole)
  {
  }

  /** The pulls of a Blender since its queues were last emptied. */
  function Since(y: System, p: PeerId): seq<Pull>
    requires p in y.peers
  {
    var mine := Mine(y.past.pulls, p);
    var n := |y.peers[p].addon.log.taken|;
    if n <= |mine| then mine[|mine| - n..] else mine
  }

  /** Each frame pulled and not settled is in the hand of that connection's writer, its last; a lost one's socket takes
      no more writes. */
  ghost predicate HandsInv(y: System)
  {
    && (forall k | 0 <= k < |y.past.pulls| ::
          y.past.pulls[k].conn in y.conns && y.conns[y.past.pulls[k].conn].peer == y.past.pulls[k].peer)
    && (forall k | 0 <= k < |y.past.pulls| && y.past.pulls[k].fate.InHand? ::
          y.conns[y.past.pulls[k].conn].hand == Some(y.past.pulls[k].frame))
    && (forall i, j | 0 <= i < j < |y.past.pulls| && y.past.pulls[i].conn == y.past.pulls[j].conn ::
          !y.past.pulls[i].fate.InHand?)
    && (forall sid | sid in y.conns && y.conns[sid].hand.Some? :: y.conns[sid].writer && Pulled(y, sid))
    && (forall k | 0 <= k < |y.past.pulls| && y.past.pulls[k].fate.Gone? :: !y.conns[y.past.pulls[k].conn].open)
  }

  ghost predicate Pulled(y: System, sid: SessionId)
  {
    exists k :: 0 <= k < |y.past.pulls| && y.past.pulls[k].conn == sid && y.past.pulls[k].fate.InHand?
  }

  /** What is on its way up a connection is the last of what crossed it. */
  ghost predicate UpInv(y: System)
  {
    forall sid | sid in y.conns :: Suffix(y.conns[sid].up, Arrivals(y.past.pulls, sid))
  }

  /** The add-on's account of what its writers took is the last of what they pulled. */
  ghost predicate LogInv(y: System)
  {
    forall p | p in y.peers :: Suffix(y.peers[p].addon.log.taken, FramesOf(Mine(y.past.pulls, p)))
  }

  ghost predicate PullInv(y: System)
  {
    HandsInv(y) && UpInv(y) && LogInv(y)
  }

  // ---------------------------------------------------------------------------
  // Steps that pull nothing and settle nothing
  // ---------------------------------------------------------------------------

  ghost predicate WritersRest(y: System, z: System)
  {
    && z.past.pulls == y.past.pulls
    && (forall d | d in z.conns ::
          if d in y.conns then
            && z.conns[d].peer == y.conns[d].peer && z.conns[d].hand == y.conns[d].hand
            && (y.conns[d].writer ==> z.conns[d].writer) && (z.conns[d].open ==> y.conns[d].open)
            && Suffix(z.conns[d].up, y.conns[d].up)
          else z.conns[d].hand.None? && z.conns[d].up == [])
    && (forall d | d in y.conns :: d in z.conns)
    && z.peers.Keys == y.peers.Keys
    && (forall p | p in y.peers ::
          z.peers[p].addon.log.taken == y.peers[p].addon.log.taken || z.peers[p].addon.log.taken == [])
  }

  lemma RestKeepsHands(y: System, z: System)
    requires HandsInv(y) && WritersRest(y, z)
    ensures HandsInv(z)
  {
    forall sid | sid in z.conns && z.conns[sid].hand.Some? ensures z.conns[sid].writer && Pulled(z, sid) {
      assert Pulled(y, sid);
    }
  }

  lemma UpRests(y: System, z: System, d: SessionId)
    requires UpInv(y) && WritersRest(y, z) && d in z.conns
    ensures Suffix(z.conns[d].up, Arrivals(z.past.pulls, d))
  {
    hide Arrivals, Suffix;
    if d in y.conns {
      SuffixOfSuffix(z.conns[d].up, y.conns[d].up, Arrivals(y.past.pulls, d));
    } else {
      NoneIsSuffix(Arrivals(z.past.pulls, d));
    }
  }

  lemma LogRests(y: System, z: System, p: PeerId)
    requires LogInv(y) && WritersRest(y, z) && p in z.peers
    ensures Suffix(z.peers[p].addon.log.taken, FramesOf(Mine(z.past.pulls, p)))
  {
    hide Mine, Suffix, FramesOf;
    NoneIsSuffix(FramesOf(Mine(z.past.pulls, p)));
  }

  lemma RestKeeps(y: System, z: System)
    requires PullInv(y) && WritersRest(y, z)
    ensures PullInv(z)
  {
    hide HandsInv, Arrivals, Mine, Suffix, FramesOf, WritersRest;
    RestKeepsHands(y, z);
    forall d | d in z.conns ensures Suffix(z.conns[d].up, Arrivals(z.past.pulls, d)) {
      UpRests(y, z, d);
    }
    forall p | p in z.peers ensures Suffix(z.peers[p].addon.log.taken, FramesOf(Mine(z.past.pulls, p))) {
      LogRests(y, z, p);
    }
  }

  lemma HandlingLeavesQueues(y: System, sid: SessionId, f: A.Frame)
    requires sid in y.conns
    ensures var z := HandleFrame(y, sid, f);
            z.conns == y.conns[sid := y.conns[sid].(pc := z.conns[sid].pc)] && z.peers == y.peers && z.past == y.past
  {
  }

  lemma ReadShape(y: System, sid: SessionId)
    requires ServerEnabled(y, sid, ReadFrame)
    ensures var z := ServerAct(y, sid, ReadFrame);
            && sid in z.conns && z.peers == y.peers && z.past == y.past
            && z.conns == y.conns[sid := y.conns[sid].(up := y.conns[sid].up[1..], pc := z.conns[sid].pc)]
  {
    var c := y.conns[sid];
    var x := SetConn(y, sid, c.(up := c.up[1..]));
    HandlingLeavesQueues(x, sid, c.up[0]);
    hide HandleFrame;
  }

  lemma PopRests(y: System, sid: SessionId)
    requires ServerEnabled(y, sid, ReadFrame)
    ensures WritersRest(y, ServerAct(y, sid, ReadFrame))
  {
    ReadShape(y, sid);
    hide ServerAct;
    SuffixRest(y.conns[sid].up);
  }

  lemma ServerRests(y: System, sid: SessionId, a: ServerStep)
    requires ServerEnabled(y, sid, a)
    ensures WritersRest(y, ServerAct(y, sid, a))
  {
    if a.ReadFrame? {
      PopRests(y, sid);
    } else {
      T.ServerShrinks(y, sid, a);
      ServerConn(y, sid, a);
      hide ServerAct;
    }
  }

  lemma ServerConn(y: System, sid: SessionId, a: ServerStep)
    requires ServerEnabled(y, sid, a) && !a.ReadFrame?
    ensures var z := ServerAct(y, sid, a);
            && z.past.pulls == y.past.pulls
            && (sid in y.conns ==>
                  && z.conns[sid].peer == y.conns[sid].peer && z.conns[sid].writer == y.conns[sid].writer
                  && z.conns[sid].open == y.conns[sid].open)
  {
    ServerPulls(y, sid, a);
    if sid in y.conns { ServerSocket(y, sid, a); }
    hide ServerAct;
  }

  lemma ServerPulls(y: System, sid: SessionId, a: ServerStep)
    requires ServerEnabled(y, sid, a) && !a.ReadFrame?
    ensures ServerAct(y, sid, a).past.pulls == y.past.pulls
  {
    hide HeldIds, SessionFailed;
  }

  lemma ServerSocket(y: System, sid: SessionId, a: ServerStep)
    requires ServerEnabled(y, sid, a) && !a.ReadFrame? && sid in y.conns
    ensures var c, d := y.conns[sid], ServerAct(y, sid, a).conns[sid];
            d.peer == c.peer && d.writer == c.writer && d.open == c.open
  {
    hide ServerAct;
    ServerFields(y, sid, a);
  }

  lemma TakenAfter(s: A.State, a: A.Action)
    requires A.Enabled(s, a) && !a.DoPop?
    ensures A.Act(s, a).log.taken == s.log.taken || A.Act(s, a).log.taken == []
  {
  }

  lemma PeerRests(y: System, p: PeerId, a: PeerStep)
    requires PeerEnabled(y, p, a)
    ensures WritersRest(y, PeerAct(y, p, a))
  {
    hide PeerAct, A.Act;
    var b := AddonAction(y, p, a);
    S.PeerMovesOneAddon(y, p, a);
    if b.Some? { TakenAfter(y.peers[p].addon, b.value); }
    PeerConnsRest(y, p, a);
  }

  lemma PeerConnsRest(y: System, p: PeerId, a: PeerStep)
    requires PeerEnabled(y, p, a)
    ensures var z := PeerAct(y, p, a);
            && z.past == y.past && z.conns.Keys == y.conns.Keys
            && forall d | d in y.conns ::
                 && z.conns[d].peer == y.conns[d].peer && z.conns[d].hand == y.conns[d].hand
                 && (y.conns[d].writer ==> z.conns[d].writer) && (z.conns[d].open ==> y.conns[d].open)
                 && z.conns[d].up == y.conns[d].up
  {
    hide PeerAct;
    PeerFields(y, p, a);
  }

  lemma CallRests(y: System, c: CallId, a: CallStep)
    requires CallEnabled(y, c, a)
    ensures WritersRest(y, CallAct(y, c, a))
  {
    hide CallAct;
    CallFields(y, c, a);
  }

  lemma ShutRests(y: System, sid: SessionId)
    requires WriterEnabled(y, sid, Shut)
    ensures WritersRest(y, WriterAct(y, sid, Shut))
  {
    hide WriterAct;
    WriterFields(y, sid, Shut);
  }

  // ---------------------------------------------------------------------------
  // A writer takes a frame
  // ---------------------------------------------------------------------------

  lemma PullShape(y: System, sid: SessionId)
    requires WriterEnabled(y, sid, TakeFrame)
    ensures var z := WriterAct(y, sid, TakeFrame);
            var c := y.conns[sid];
            var f := y.peers[c.peer].addon.outbox[0];
            && z.past.pulls == y.past.pulls + [Pull(c.peer, sid, f, InHand)]
            && z.conns == y.conns[sid := c.(hand := Some(f))]
            && z.peers.Keys == y.peers.Keys
            && z.peers[c.peer].addon.log.taken == y.peers[c.peer].addon.log.taken + [f]
            && forall p | p in y.peers && p != c.peer :: z.peers[p] == y.peers[p]
  {
    hide WriterAct;
    WriterFields(y, sid, TakeFrame);
  }

  lemma MineSnoc(pulls: seq<Pull>, pull: Pull, p: PeerId)
    ensures Mine(pulls + [pull], p) == Mine(pulls, p) + if pull.peer == p then [pull] else []
    ensures Arrivals(pulls + [pull], p) == Arrivals(pulls, p) + if pull.conn == p then Arrival(pull) else []
  {
    assert (pulls + [pull])[..|pulls|] == pulls;
  }

  lemma PullKeeps(y: System, sid: SessionId)
    requires PullInv(y) && WriterEnabled(y, sid, TakeFrame)
    ensures PullInv(WriterAct(y, sid, TakeFrame))
  {
    hide WriterAct, Mine, Arrivals, Suffix, FramesOf, HandsInv;
    var z := WriterAct(y, sid, TakeFrame);
    var c := y.conns[sid];
    var pull := Pull(c.peer, sid, y.peers[c.peer].addon.outbox[0], InHand);
    PullShape(y, sid);
    PullKeepsHands(y, z, sid);
    forall d | d in z.conns ensures Suffix(z.conns[d].up, Arrivals(z.past.pulls, d)) {
      PullArrives(y.past.pulls, pull, d);
    }
    forall p | p in z.peers ensures Suffix(z.peers[p].addon.log.taken, FramesOf(Mine(z.past.pulls, p))) {
      PullIsTaken(y.peers[p].addon.log.taken, y.past.pulls, pull, p);
    }
  }

  lemma PullArrives(pulls: seq<Pull>, pull: Pull, d: SessionId)
    requires pull.fate.InHand?
    ensures Arrivals(pulls + [pull], d) == Arrivals(pulls, d)
  {
    hide Arrivals;
    MineSnoc(pulls, pull, d);
    assert Arrivals(pulls, d) + [] == Arrivals(pulls, d);
  }

  lemma PullIsTaken(taken: seq<A.Frame>, pulls: seq<Pull>, pull: Pull, p: PeerId)
    requires Suffix(taken, FramesOf(Mine(pulls, p)))
    ensures Suffix(if pull.peer == p then taken + [pull.frame] else taken, FramesOf(Mine(pulls + [pull], p)))
  {
    hide Mine, Suffix, FramesOf;
    MineSnoc(pulls, pull, p);
    TakenGrows(taken, Mine(pulls, p), pull);
    assert Mine(pulls, p) + [] == Mine(pulls, p);
  }

  lemma TakenGrows(taken: seq<A.Frame>, mine: seq<Pull>, pull: Pull)
    requires Suffix(taken, FramesOf(mine))
    ensures Suffix(taken + [pull.frame], FramesOf(mine + [pull]))
  {
    assert FramesOf(mine + [pull]) == FramesOf(mine) + [pull.frame];
    SuffixGrows(taken, FramesOf(mine), [pull.frame]);
  }

  lemma PullKeepsHands(y: System, z: System, sid: SessionId)
    requires HandsInv(y) && sid in y.conns && y.conns[sid].hand.None? && y.conns[sid].writer
    requires z.conns.Keys == y.conns.Keys && z.conns[sid].hand.Some?
    requires z.conns[sid] == y.conns[sid].(hand := z.conns[sid].hand)
    requires forall d | d in y.conns && d != sid :: z.conns[d] == y.conns[d]
    requires z.past.pulls == y.past.pulls + [Pull(y.conns[sid].peer, sid, z.conns[sid].hand.value, InHand)]
    ensures HandsInv(z)
  {
    forall k | 0 <= k < |y.past.pulls| && y.past.pulls[k].fate.InHand? ensures y.past.pulls[k].conn != sid {
      assert y.conns[y.past.pulls[k].conn].hand.Some?;
    }
    OneMorePull(y, z, sid);
  }

  lemma OneMorePull(y: System, z: System, sid: SessionId)
    requires HandsInv(y) && sid in y.conns && z.conns.Keys == y.conns.Keys && z.conns[sid].hand.Some? && y.conns[sid].writer
    requires z.conns[sid] == y.conns[sid].(hand := z.conns[sid].hand)
    requires forall d | d in y.conns && d != sid :: z.conns[d] == y.conns[d]
    requires z.past.pulls == y.past.pulls + [Pull(y.conns[sid].peer, sid, z.conns[sid].hand.value, InHand)]
    requires forall k | 0 <= k < |y.past.pulls| && y.past.pulls[k].fate.InHand? :: y.past.pulls[k].conn != sid
    ensures HandsInv(z)
  {
    hide Pulled;
    PulledNow(z, sid, |y.past.pulls|);
    forall d | d in z.conns && z.conns[d].hand.Some? ensures z.conns[d].writer && Pulled(z, d) {
      if d != sid { StaysPulled(y, z, d); }
    }
  }

  lemma PulledNow(z: System, sid: SessionId, n: nat)
    requires n < |z.past.pulls| && z.past.pulls[n].conn == sid && z.past.pulls[n].fate.InHand?
    ensures Pulled(z, sid)
  {
  }

  lemma StaysPulled(y: System, z: System, d: SessionId)
    requires Pulled(y, d) && y.past.pulls <= z.past.pulls
    ensures Pulled(z, d)
  {
    var k :| 0 <= k < |y.past.pulls| && y.past.pulls[k].conn == d && y.past.pulls[k].fate.InHand?;
    assert z.past.pulls[k] == y.past.pulls[k];
  }

  // ---------------------------------------------------------------------------
  // A frame in hand meets its fate
  // ---------------------------------------------------------------------------

  function FateOf(a: WriterStep): Fate
  {
    if a.WriteFrame? then Crossed else if a.WriteTooLarge? then TooBig else Gone
  }

  lemma SettleShape(y: System, sid: SessionId, a: WriterStep)
    requires WriterEnabled(y, sid, a) && !a.TakeFrame? && !a.Shut?
    ensures var z := WriterAct(y, sid, a);
            var c := y.conns[sid];
            && z.past.pulls == Fated(y.past.pulls, sid, FateOf(a)) && z.peers == y.peers
            && z.conns.Keys == y.conns.Keys && (forall d | d in y.conns && d != sid :: z.conns[d] == y.conns[d])
            && z.conns[sid].peer == c.peer && z.conns[sid].open == c.open && z.conns[sid].hand.None?
            && z.conns[sid].up == c.up + (if c.hand.Some? then Arrival(Pull(c.peer, sid, c.hand.value, FateOf(a))) else [])
  {
    hide WriterAct;
    WriterFields(y, sid, a);
  }

  lemma SettleKeepsHands(y: System, z: System, sid: SessionId, fate: Fate)
    requires HandsInv(y) && sid in y.conns && !fate.InHand? && (fate.Gone? ==> y.conns[sid].hand.None? || !y.conns[sid].open)
    requires z.past.pulls == Fated(y.past.pulls, sid, fate)
    requires z.conns.Keys == y.conns.Keys && (forall d | d in y.conns && d != sid :: z.conns[d] == y.conns[d])
    requires z.conns[sid].peer == y.conns[sid].peer && z.conns[sid].open == y.conns[sid].open && z.conns[sid].hand.None?
    ensures HandsInv(z)
  {
    hide Pulled;
    SettledPulls(y, z, sid, fate);
    hide Fated;
    forall d | d in z.conns && z.conns[d].hand.Some? ensures z.conns[d].writer && Pulled(z, d) {
      SettledElsewhere(y, z, sid, fate, d);
    }
  }

  /** What settling makes of each pull: those in hand elsewhere stay in hand, and what is gone was gone or is gone here. */
  lemma SettledPulls(y: System, z: System, sid: SessionId, fate: Fate)
    requires HandsInv(y) && sid in y.conns && !fate.InHand? && (fate.Gone? ==> y.conns[sid].hand.None? || !y.conns[sid].open)
    requires z.past.pulls == Fated(y.past.pulls, sid, fate)
    ensures forall k | 0 <= k < |z.past.pulls| ::
              && z.past.pulls[k] == y.past.pulls[k].(fate := z.past.pulls[k].fate)
              && (z.past.pulls[k].fate.InHand? ==> y.past.pulls[k].fate.InHand? && y.past.pulls[k].conn != sid)
              && (z.past.pulls[k].fate.Gone? ==> !y.conns[y.past.pulls[k].conn].open)
  {
    hide Pulled;
  }

  lemma SettledElsewhere(y: System, z: System, sid: SessionId, fate: Fate, d: SessionId)
    requires Pulled(y, d) && d != sid && z.past.pulls == Fated(y.past.pulls, sid, fate)
    ensures Pulled(z, d)
  {
    var k :| 0 <= k < |y.past.pulls| && y.past.pulls[k].conn == d && y.past.pulls[k].fate.InHand?;
    assert z.past.pulls[k] == y.past.pulls[k];
  }

  lemma FatedSnoc(pulls: seq<Pull>, last: Pull, sid: SessionId, fate: Fate)
    ensures Fated(pulls + [last], sid, fate)
         == Fated(pulls, sid, fate) + [if last.conn == sid && last.fate.InHand? then last.(fate := fate) else last]
  {
  }

  predicate Waits(pulls: seq<Pull>, sid: SessionId)
  {
    exists k :: 0 <= k < |pulls| && pulls[k].conn == sid && pulls[k].fate.InHand?
  }

  /** Settling changes no other connection's arrivals. */
  lemma {:induction false} FatedElsewhere(pulls: seq<Pull>, sid: SessionId, fate: Fate, d: SessionId)
    requires d != sid || !Waits(pulls, sid)
    ensures Arrivals(Fated(pulls, sid, fate), d) == Arrivals(pulls, d)
  {
    if pulls == [] {
    } else {
      var rest, last := pulls[..|pulls| - 1], pulls[|pulls| - 1];
      assert pulls == rest + [last];
      FatedElsewhere(rest, sid, fate, d);
      FatedSnoc(rest, last, sid, fate);
      MineSnoc(Fated(rest, sid, fate), if last.conn == sid && last.fate.InHand? then last.(fate := fate) else last, d);
    }
  }

  lemma ArrivalsSnoc(rest: seq<Pull>, last: Pull, sid: SessionId, fate: Fate)
    ensures var met := if last.conn == sid && last.fate.InHand? then last.(fate := fate) else last;
            && Arrivals(Fated(rest + [last], sid, fate), sid)
                 == Arrivals(Fated(rest, sid, fate), sid) + (if met.conn == sid then Arrival(met) else [])
            && Arrivals(rest + [last], sid) == Arrivals(rest, sid) + (if last.conn == sid then Arrival(last) else [])
  {
    hide Arrivals, Fated, Arrival;
    FatedSnoc(rest, last, sid, fate);
    MineSnoc(Fated(rest, sid, fate), if last.conn == sid && last.fate.InHand? then last.(fate := fate) else last, sid);
    MineSnoc(rest, last, sid);
  }

  /** The frame settled is the last its connection pulled, so it arrives last. */
  lemma {:induction false} FatedArrives(pulls: seq<Pull>, sid: SessionId, fate: Fate, k: nat)
    requires k < |pulls| && pulls[k].conn == sid && pulls[k].fate.InHand?
    requires forall i, j | 0 <= i < j < |pulls| && pulls[i].conn == pulls[j].conn :: !pulls[i].fate.InHand?
    ensures Arrivals(Fated(pulls, sid, fate), sid) == Arrivals(pulls, sid) + Arrival(pulls[k].(fate := fate))
  {
    hide Arrivals, Fated;
    var rest, last := pulls[..|pulls| - 1], pulls[|pulls| - 1];
    assert pulls == rest + [last];
    ArrivalsSnoc(rest, last, sid, fate);
    if k == |rest| {
      NoneWaits(pulls, sid);
      FatedElsewhere(rest, sid, fate, sid);
      assert Arrivals(rest, sid) + [] == Arrivals(rest, sid);
    } else {
      assert last.conn != sid;
      FatedArrives(rest, sid, fate, k);
      assert Arrivals(rest, sid) + [] == Arrivals(rest, sid);
      assert Arrivals(Fated(rest, sid, fate), sid) + [] == Arrivals(Fated(rest, sid, fate), sid);
    }
  }

  lemma NoneWaits(pulls: seq<Pull>, sid: SessionId)
    requires pulls != [] && pulls[|pulls| - 1].conn == sid
    requires forall i, j | 0 <= i < j < |pulls| && pulls[i].conn == pulls[j].conn :: !pulls[i].fate.InHand?
    ensures !Waits(pulls[..|pulls| - 1], sid)
  {
    var rest := pulls[..|pulls| - 1];
    assert forall i | 0 <= i < |rest| :: rest[i] == pulls[i];
  }

  lemma {:induction false} FatedMine(pulls: seq<Pull>, sid: SessionId, fate: Fate, p: PeerId)
    ensures Mine(Fated(pulls, sid, fate), p) == Fated(Mine(pulls, p), sid, fate)
  {
    if pulls != [] {
      var rest, last := pulls[..|pulls| - 1], pulls[|pulls| - 1];
      assert pulls == rest + [last];
      FatedMine(rest, sid, fate, p);
      FatedSnoc(rest, last, sid, fate);
      FatedSnoc(Mine(rest, p), last, sid, fate);
      MineSnoc(Fated(rest, sid, fate), if last.conn == sid && last.fate.InHand? then last.(fate := fate) else last, p);
    }
  }

  lemma SettleKeepsUp(y: System, z: System, sid: SessionId, fate: Fate, d: SessionId)
    requires HandsInv(y) && UpInv(y) && sid in y.conns && d in y.conns && z.past.pulls == Fated(y.past.pulls, sid, fate)
    requires z.conns.Keys == y.conns.Keys && (d != sid ==> z.conns[d].up == y.conns[d].up)
    requires d == sid ==>
      z.conns[d].up == y.conns[d].up +
        if y.conns[d].hand.Some? then Arrival(Pull(y.conns[d].peer, d, y.conns[d].hand.value, fate)) else []
    ensures Suffix(z.conns[d].up, Arrivals(z.past.pulls, d))
  {
    hide Arrivals, Fated, Suffix;
    if d == sid && y.conns[sid].hand.Some? {
      assert Pulled(y, sid);
      var k :| 0 <= k < |y.past.pulls| && y.past.pulls[k].conn == sid && y.past.pulls[k].fate.InHand?;
      FatedArrives(y.past.pulls, sid, fate, k);
      SuffixGrows(y.conns[d].up, Arrivals(y.past.pulls, d), Arrival(y.past.pulls[k].(fate := fate)));
    } else {
      assert d == sid ==> !Waits(y.past.pulls, sid);
      FatedElsewhere(y.past.pulls, sid, fate, d);
      assert d == sid ==> y.conns[d].up + [] == y.conns[d].up;
    }
  }

  lemma SettleKeeps(y: System, sid: SessionId, a: WriterStep)
    requires PullInv(y) && WriterEnabled(y, sid, a) && !a.TakeFrame? && !a.Shut?
    ensures PullInv(WriterAct(y, sid, a))
  {
    var z := WriterAct(y, sid, a);
    SettleShape(y, sid, a);
    hide WriterAct, Mine, Arrivals, Fated, Suffix;
    SettleKeepsHands(y, z, sid, FateOf(a));
    forall d | d in z.conns ensures Suffix(z.conns[d].up, Arrivals(z.past.pulls, d)) {
      SettleKeepsUp(y, z, sid, FateOf(a), d);
    }
    hide HandsInv;
    forall p | p in z.peers ensures Suffix(z.peers[p].addon.log.taken, FramesOf(Mine(z.past.pulls, p))) {
      FatedMine(y.past.pulls, sid, FateOf(a), p);
      SameFrames(Mine(y.past.pulls, p), sid, FateOf(a));
    }
  }

  lemma SameFrames(pulls: seq<Pull>, sid: SessionId, fate: Fate)
    ensures FramesOf(Fated(pulls, sid, fate)) == FramesOf(pulls)
  {
  }

  lemma StepKeepsPulls(y: System, a: Step)
    requires PullInv(y) && Enabled(y, a)
    ensures PullInv(Act(y, a))
  {
    hide PullInv;
    match a
    case Server(sid, s) =>
      ServerRests(y, sid, s);
      RestKeeps(y, ServerAct(y, sid, s));
    case Main(p, s) =>
      PeerRests(y, p, s);
      RestKeeps(y, PeerAct(y, p, s));
    case Writer(sid, s) =>
      if s.TakeFrame? {
        PullKeeps(y, sid);
      } else if s.Shut? {
        ShutRests(y, sid);
        RestKeeps(y, WriterAct(y, sid, s));
      } else {
        SettleKeeps(y, sid, s);
      }
    case Caller(c, s) =>
      CallRests(y, c, s);
      RestKeeps(y, CallAct(y, c, s));
  }

  // ---------------------------------------------------------------------------
  // The account
  // ---------------------------------------------------------------------------

  /** The responses among these pulls that met one fate. */
  function Tally(pulls: seq<Pull>, fate: Fate): multiset<RequestId>
  {
    if pulls == [] then multiset{}
    else var last := pulls[|pulls| - 1];
      Tally(pulls[..|pulls| - 1], fate) + if last.fate == fate then A.One(last.frame) else multiset{}
  }

  lemma {:induction false} TallySplit(pulls: seq<Pull>)
    ensures A.Responses(FramesOf(pulls))
         == Tally(pulls, Crossed) + Tally(pulls, TooBig) + Tally(pulls, InHand) + Tally(pulls, Gone)
  {
    if pulls != [] {
      var rest, last := pulls[..|pulls| - 1], pulls[|pulls| - 1];
      TallySplit(rest);
      assert pulls == rest + [last];
      assert FramesOf(pulls) == FramesOf(rest) + [last.frame];
      A.ResponsesSnoc(FramesOf(rest), last.frame);
      TallySnoc(rest, last, Crossed);
      TallySnoc(rest, last, TooBig);
      TallySnoc(rest, last, InHand);
      TallySnoc(rest, last, Gone);
      hide Tally, A.Responses, A.One, FramesOf;
    }
  }

  lemma TallySnoc(rest: seq<Pull>, last: Pull, fate: Fate)
    ensures Tally(rest + [last], fate) == Tally(rest, fate) + if last.fate == fate then A.One(last.frame) else multiset{}
  {
    assert (rest + [last])[..|rest|] == rest;
  }

  lemma TakenIsSince(y: System, p: PeerId)
    requires LogInv(y) && p in y.peers
    ensures y.peers[p].addon.log.taken == FramesOf(Since(y, p))
  {
  }

  /** Requests are conserved up to the wire: every request frame an add-on read since its queues were emptied is in its
      inbox, in dispatch, or has one response, which waits in the outbox, was dropped on a full outbox, crossed, was
      replaced because it was too large, is in a writer's hand, or was lost by one. */
  lemma RequestsConservedToTheWire(y: System, p: PeerId)
    requires S.AccountInv(y) && PullInv(y) && p in y.peers
    ensures var s := y.peers[p].addon;
            var since := Since(y, p);
            multiset(A.Ids(s.log.accepted)) + multiset(s.log.refused)
              == multiset(A.Ids(s.inbox)) + multiset(A.Ids(A.BusyList(s)))
               + A.Responses(s.outbox) + A.Responses(A.Frames(s.log.tried, false))
               + Tally(since, Crossed) + Tally(since, TooBig) + Tally(since, InHand) + Tally(since, Gone)
  {
    var s := y.peers[p].addon;
    A.RequestsConserved(s);
    TakenIsSince(y, p);
    TallySplit(Since(y, p));
    hide A.Accounted, A.Responses, A.Frames, A.Ids, Tally, Since, S.AccountInv, PullInv;
    Regroup(multiset(A.Ids(s.inbox)) + multiset(A.Ids(A.BusyList(s))), A.Responses(s.outbox),
            A.Responses(A.Frames(s.log.tried, false)), Tally(Since(y, p), Crossed), Tally(Since(y, p), TooBig),
            Tally(Since(y, p), InHand), Tally(Since(y, p), Gone));
  }

  lemma Regroup(waiting: multiset<RequestId>, out: multiset<RequestId>, dropped: multiset<RequestId>,
                a: multiset<RequestId>, b: multiset<RequestId>, c: multiset<RequestId>, d: multiset<RequestId>)
    ensures waiting + out + (a + b + c + d) + dropped == waiting + out + dropped + a + b + c + d
  {
  }

  // ---------------------------------------------------------------------------
  // What is lost
  // ---------------------------------------------------------------------------

  /** The frame, or the error in its place, was written. */
  predicate GotAcross(y: System, k: nat)
  {
    k < |y.past.pulls| && Arrival(y.past.pulls[k]) != []
  }

  /** Pulled over a socket that has stopped taking writes. */
  ghost predicate Stuck(y: System, k: nat)
  {
    && k < |y.past.pulls| && y.past.pulls[k].conn in y.conns && !y.conns[y.past.pulls[k].conn].open
    && Arrival(y.past.pulls[k]) == []
  }

  lemma StuckStays(y: System, a: Step, k: nat)
    requires HandsInv(y) && Stuck(y, k) && Enabled(y, a)
    ensures Stuck(Act(y, a), k)
  {
    match a
    case Server(sid, s) => ServerRests(y, sid, s);
    case Main(p, s) => PeerRests(y, p, s);
    case Writer(sid, s) =>
      if s.TakeFrame? { PullShape(y, sid); }
      else if s.Shut? { ShutRests(y, sid); }
      else { StuckSettles(y, sid, s, k); }
    case Caller(c, s) => CallRests(y, c, s);
  }

  lemma StuckSettles(y: System, sid: SessionId, a: WriterStep, k: nat)
    requires HandsInv(y) && Stuck(y, k) && WriterEnabled(y, sid, a) && !a.TakeFrame? && !a.Shut?
    ensures Stuck(WriterAct(y, sid, a), k)
  {
    SettleShape(y, sid, a);
    hide WriterAct;
  }

  lemma {:induction false} StuckForGood(y: System, steps: seq<Step>, k: nat)
    requires PullInv(y) && Stuck(y, k) && Runs(y, steps)
    ensures Stuck(After(y, steps), k)
    decreases |steps|
  {
    if steps == [] {
    } else {
      StuckStays(y, steps[0], k);
      StepKeepsPulls(y, steps[0]);
      hide PullInv, Stuck, Act, Enabled;
      StuckForGood(Act(y, steps[0]), steps[1..], k);
    }
  }

  lemma WriteGetsAcross(y: System, k: nat)
    requires HandsInv(y) && k < |y.past.pulls| && y.past.pulls[k].fate.InHand? && y.conns[y.past.pulls[k].conn].open
    ensures var a := Writer(y.past.pulls[k].conn, WriteFrame); Enabled(y, a) && GotAcross(Act(y, a), k)
  {
    var sid := y.past.pulls[k].conn;
    assert y.conns[sid].hand == Some(y.past.pulls[k].frame);
    SettleShape(y, sid, WriteFrame);
  }

  /** The exact condition: a frame a writer has taken can still get across if and only if its connection's socket still
      takes writes. A frame taken by the writer of a connection already closed is lost, whichever session it answers. */
  lemma GetsAcrossExactlyWhenOpen(y: System, k: nat)
    requires PullInv(y) && k < |y.past.pulls| && y.past.pulls[k].fate.InHand?
    ensures (exists later :: Runs(y, later) && GotAcross(After(y, later), k)) <==> y.conns[y.past.pulls[k].conn].open
  {
    if y.conns[y.past.pulls[k].conn].open {
      WriteGetsAcross(y, k);
      hide *;
      OneStep(y, Writer(y.past.pulls[k].conn, WriteFrame));
    } else {
      forall later | Runs(y, later) ensures !GotAcross(After(y, later), k) {
        StuckForGood(y, later, k);
      }
    }
  }

  lemma OneStep(y: System, a: Step)
    requires Enabled(y, a)
    ensures Runs(y, [a]) && After(y, [a]) == Act(y, a)
  {
    hide Act, Enabled;
    assert Runs(Act(y, a), [a][1..]) && After(Act(y, a), [a][1..]) == Act(y, a);
  }
}
