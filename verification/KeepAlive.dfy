/** Keep-alive between the two ends of a channel: the H2N end pings, and either end answers as
    evnMsg does. The two indicator values are constants of another library. */
module KeepAlive {
  import opened Codec
  import Dispatch
  import Proto
  import TransTable

  datatype Tags = Tags(ping: byte, pong: byte) {
    /** A pong is taken by the ping branch, yet is no ping. */
    predicate Good() {
      ping != 0 && pong & ping != 0 && pong != ping
    }
  }

  datatype Answer = Quiet | Pong | Close

  /** What evnMsg does with a PDU that is one indicator byte. */
  function AnswerTo(t: Tags, indicator: byte): Answer {
    if indicator & t.ping != 0 then if indicator == t.pong then Quiet else Pong
    else Close
  }

  lemma AnswerIsDispatch(o: Dispatch.Office, c: TransTable.Client, s: Dispatch.Actor, indicator: byte)
    ensures var a := AnswerTo(Tags(o.ping, o.pong), indicator);
            Dispatch.Handle(o, c, s, Proto.XscPdu(indicator, None, None))
            == (if a.Pong? then s.(pongs := s.pongs + 1) else s, !a.Close?)
  {
    hide Dispatch.Route;
  }

  /** Both directions of the channel; `pings` and `pongs` count what was sent. */
  datatype Alive = Alive(out: seq<byte>, back: seq<byte>, pings: nat, pongs: nat, delivered: nat, lastHb: nat,
      open: bool)

  /** `clock` is what Xsc::clock reads when dida is called with `now`. */
  datatype Beat = Dida(now: nat, clock: nat) | Out | Back

  predicate CanBeat(a: Alive, b: Beat) {
    a.open && match b
    case Dida(_, _) => true
    case Out => a.out != []
    case Back => a.back != []
  }

  function Beaten(t: Tags, period: nat, a: Alive, b: Beat): Alive
    requires CanBeat(a, b)
  {
    match b
    case Dida(now, clock) =>
      if now < a.lastHb + period then a else a.(lastHb := clock, out := a.out + [t.ping], pings := a.pings + 1)
    case Out =>
      var a' := a.(out := a.out[1..], delivered := a.delivered + 1);
      (match AnswerTo(t, a.out[0])
       case Quiet => a'
       case Pong => a'.(back := a.back + [t.pong], pongs := a.pongs + 1)
       case Close => a'.(open := false))
    case Back =>
      var a' := a.(back := a.back[1..], delivered := a.delivered + 1);
      match AnswerTo(t, a.back[0])
      case Quiet => a'
      case Pong => a'.(out := a.out + [t.pong], pongs := a.pongs + 1)
      case Close => a'.(open := false)
  }

  /** The H2N end's part of it as the object keeps it; `period` is cfg->heartbeat in milliseconds. */
  class XmsgImTcpH2N {
    const tags: Tags
    const period: nat
    var est: bool
    var lastHbTs: nat
    var wire: seq<byte>

    constructor (tags: Tags, period: nat, clock: nat)
      ensures this.tags == tags && this.period == period && !est && lastHbTs == clock && wire == []
    {
      this.tags, this.period := tags, period;
      est, lastHbTs, wire := false, clock, [];
    }

    /** A channel that is not established does not ping. */
    method Dida(now: nat, clock: nat)
      modifies this`lastHbTs, this`wire
      ensures !est ==> (wire, lastHbTs) == (old(wire), old(lastHbTs))
      ensures est ==> forall a: Alive | a.open && (a.out, a.lastHb) == (old(wire), old(lastHbTs)) ::
                (wire, lastHbTs) == (Beaten(tags, period, a, Beat.Dida(now, clock)).out,
                                     Beaten(tags, period, a, Beat.Dida(now, clock)).lastHb)
    {
      if !est {
        return;
      }
      Heartbeat(now, clock);
    }

    method Heartbeat(now: nat, clock: nat)
      modifies this`lastHbTs, this`wire
      ensures forall a: Alive | a.open && (a.out, a.lastHb) == (old(wire), old(lastHbTs)) ::
                (wire, lastHbTs) == (Beaten(tags, period, a, Beat.Dida(now, clock)).out,
                                     Beaten(tags, period, a, Beat.Dida(now, clock)).lastHb)
      ensures now >= old(lastHbTs) + period ==> wire == old(wire) + [tags.ping] && lastHbTs == clock
      ensures now < old(lastHbTs) + period ==> wire == old(wire) && lastHbTs == old(lastHbTs)
    {
      if now < lastHbTs + period {
        return;
      }
      lastHbTs := clock;
      wire := wire + [tags.ping];
    }
  }

  ghost predicate Beats(t: Tags, period: nat, a: Alive, bs: seq<Beat>)
    decreases |bs|
  {
    bs == [] || (CanBeat(a, bs[0]) && Beats(t, period, Beaten(t, period, a, bs[0]), bs[1..]))
  }

  ghost function Later(t: Tags, period: nat, a: Alive, bs: seq<Beat>): Alive
    requires Beats(t, period, a, bs)
    decreases |bs|
  {
    if bs == [] then a else Later(t, period, Beaten(t, period, a, bs[0]), bs[1..])
  }

  function Connected(now: nat): Alive {
    Alive([], [], 0, 0, 0, now, true)
  }

  function Count(s: seq<byte>, b: byte): nat {
    if s == [] then 0 else (if s[0] == b then 1 else 0) + Count(s[1..], b)
  }

  lemma {:induction false} CountSnoc(s: seq<byte>, x: byte, b: byte)
    ensures Count(s + [x], b) == Count(s, b) + if x == b then 1 else 0
  {
    if s == [] {
      assert s + [x] == [x] && [x][1..] == [];
    } else {
      CountSnoc(s[1..], x, b);
      assert (s + [x])[1..] == s[1..] + [x];
    }
  }

  /** Two for every ping in flight, one for every pong. */
  function Weight(t: Tags, a: Alive): nat {
    2 * (Count(a.out, t.ping) + Count(a.back, t.ping)) + Count(a.out, t.pong) + Count(a.back, t.pong)
  }

  ghost predicate Steady(t: Tags, a: Alive) {
    && a.open
    && (forall i | 0 <= i < |a.out| :: a.out[i] == t.ping || a.out[i] == t.pong)
    && (forall i | 0 <= i < |a.back| :: a.back[i] == t.ping || a.back[i] == t.pong)
    && a.pings == a.pongs + Count(a.out, t.ping) + Count(a.back, t.ping)
    && 2 * a.pings == a.delivered + Weight(t, a)
  }

  lemma Answers(t: Tags)
    requires t.Good()
    ensures AnswerTo(t, t.ping).Pong? && AnswerTo(t, t.pong).Quiet? && t.ping != t.pong
  {
    assert t.ping & t.ping == t.ping;
  }

  /** Every delivery takes exactly one from the weight in flight. */
  lemma BeatSteady(t: Tags, period: nat, a: Alive, b: Beat)
    requires t.Good() && Steady(t, a) && CanBeat(a, b)
    ensures Steady(t, Beaten(t, period, a, b))
    ensures !b.Dida? ==> Weight(t, Beaten(t, period, a, b)) == Weight(t, a) - 1
  {
    hide *;
    match b
    case Dida(now, clock) => DidaSteady(t, period, a, now, clock);
    case Out => OutSteady(t, period, a);
    case Back => BackSteady(t, period, a);
  }

  lemma DidaSteady(t: Tags, period: nat, a: Alive, now: nat, clock: nat)
    requires t.Good() && Steady(t, a) && CanBeat(a, Dida(now, clock))
    ensures Steady(t, Beaten(t, period, a, Dida(now, clock)))
  {
    Answers(t);
    hide AnswerTo, Tags.Good;
    CountSnoc(a.out, t.ping, t.ping);
    CountSnoc(a.out, t.ping, t.pong);
  }

  lemma OutSteady(t: Tags, period: nat, a: Alive)
    requires t.Good() && Steady(t, a) && CanBeat(a, Out)
    ensures Steady(t, Beaten(t, period, a, Out))
    ensures Weight(t, Beaten(t, period, a, Out)) == Weight(t, a) - 1
  {
    Answers(t);
    hide AnswerTo, Tags.Good;
    CountSnoc(a.back, t.pong, t.ping);
    CountSnoc(a.back, t.pong, t.pong);
  }

  lemma BackSteady(t: Tags, period: nat, a: Alive)
    requires t.Good() && Steady(t, a) && CanBeat(a, Back)
    ensures Steady(t, Beaten(t, period, a, Back))
    ensures Weight(t, Beaten(t, period, a, Back)) == Weight(t, a) - 1
  {
    Answers(t);
    hide AnswerTo, Tags.Good;
    CountSnoc(a.out, t.pong, t.ping);
    CountSnoc(a.out, t.pong, t.pong);
  }

  /** The whole history of a channel: it stays open, no pong is answered, every ping is answered by
      one pong when it arrives, and the deliveries and what is in flight make up twice the pings. */
  lemma {:induction false} StaysSteady(t: Tags, period: nat, a: Alive, bs: seq<Beat>)
    requires t.Good() && Steady(t, a) && Beats(t, period, a, bs)
    ensures var z := Later(t, period, a, bs);
            z.open && z.pongs <= z.pings && z.delivered <= 2 * z.pings && Steady(t, z)
    decreases |bs|
  {
    hide Beaten, CanBeat, Tags.Good;
    if bs != [] {
      BeatSteady(t, period, a, bs[0]);
      StaysSteady(t, period, Beaten(t, period, a, bs[0]), bs[1..]);
    }
  }

  /** Without further pings the channel falls silent after exactly as many deliveries as the weight
      in flight. */
  lemma {:induction false} FallsSilent(t: Tags, period: nat, a: Alive, bs: seq<Beat>)
    requires t.Good() && Steady(t, a) && Beats(t, period, a, bs)
    requires forall i | 0 <= i < |bs| :: !bs[i].Dida?
    ensures |bs| + Weight(t, Later(t, period, a, bs)) == Weight(t, a)
    decreases |bs|
  {
    hide Beaten, CanBeat, Tags.Good, Weight, Steady;
    if bs != [] {
      BeatSteady(t, period, a, bs[0]);
      FallsSilent(t, period, Beaten(t, period, a, bs[0]), bs[1..]);
    }
  }

  /** The heartbeat's rate: pings are a period apart, whatever the intervals of dida, when the clock is
      not behind the time dida was called with. */
  lemma {:induction false} PingsApart(t: Tags, period: nat, a: Alive, bs: seq<Beat>)
    requires Beats(t, period, a, bs) && forall i | 0 <= i < |bs| && bs[i].Dida? :: bs[i].now <= bs[i].clock
    ensures var z := Later(t, period, a, bs);
            a.lastHb + (z.pings - a.pings) * period <= z.lastHb && a.pings <= z.pings
    decreases |bs|
  {
    if bs != [] {
      var m := Beaten(t, period, a, bs[0]);
      var z := Later(t, period, m, bs[1..]);
      assert (m.pings, m.lastHb) == (a.pings, a.lastHb)
          || (m.pings == a.pings + 1 && m.lastHb >= a.lastHb + period);
      hide Beaten, CanBeat, Later, Beats;
      PingsApart(t, period, m, bs[1..]);
      OneMore(z.pings - m.pings, period);
    }
  }

  lemma OneMore(n: int, period: nat)
    ensures (n + 1) * period == n * period + period
  {
  }

  /** Whatever happens, the channel stays open, and when nothing is in flight every ping has had its
      pong. */
  ghost predicate KeepsAlive(t: Tags) {
    forall period: nat, now: nat, bs: seq<Beat> | Beats(t, period, Connected(now), bs) ::
      Healthy(Later(t, period, Connected(now), bs))
  }

  predicate Healthy(a: Alive) {
    a.open && (a.out == [] && a.back == [] ==> a.pongs == a.pings)
  }

  /** Keep-alive works exactly when the two constants are as they should be. */
  lemma KeepAliveExact(t: Tags)
    ensures KeepsAlive(t) <==> t.Good()
  {
    if t.Good() {
      forall period: nat, now: nat, bs: seq<Beat> | Beats(t, period, Connected(now), bs)
        ensures Healthy(Later(t, period, Connected(now), bs))
      {
        StaysSteady(t, period, Connected(now), bs);
      }
    } else {
      var ill := Illness(t);
      assert !Healthy(Later(t, 0, Connected(0), ill));
    }
  }

  lemma BadAnswers(t: Tags)
    requires !t.Good()
    ensures AnswerTo(t, t.ping).Pong? ==> AnswerTo(t, t.pong).Close?
  {
    assert t.ping & t.ping == t.ping;
  }

  lemma BeatsCons(t: Tags, period: nat, a: Alive, b: Beat, bs: seq<Beat>)
    requires CanBeat(a, b) && Beats(t, period, Beaten(t, period, a, b), bs)
    ensures Beats(t, period, a, [b] + bs)
              && Later(t, period, a, [b] + bs) == Later(t, period, Beaten(t, period, a, b), bs)
  {
    hide CanBeat, Beaten;
    assert ([b] + bs)[1..] == bs;
  }

  /** Otherwise a ping closes the channel, or its pong does, or it has no pong at all. */
  lemma Illness(t: Tags) returns (bs: seq<Beat>)
    requires !t.Good()
    ensures Beats(t, 0, Connected(0), bs) && !Healthy(Later(t, 0, Connected(0), bs))
  {
    BadAnswers(t);
    hide AnswerTo, Tags.Good;
    var a1 := Alive([t.ping], [], 1, 0, 0, 0, true);
    assert Beaten(t, 0, Connected(0), Dida(0, 0)) == a1;
    var a2 := Beaten(t, 0, a1, Out);
    var rest := [];
    if AnswerTo(t, t.ping).Pong? {
      assert a2.open && a2.back == [t.pong] && !Beaten(t, 0, a2, Back).open;
      BeatsCons(t, 0, a2, Back, []);
      rest := [Back] + [];
    }
    BeatsCons(t, 0, a1, Out, rest);
    BeatsCons(t, 0, Connected(0), Dida(0, 0), [Out] + rest);
    bs := [Dida(0, 0)] + ([Out] + rest);
  }
}
