/** Transaction objects: the fields of XmsgImTrans and of its initiative heir. */
module Trans {
  import opened Codec
  import opened Proto

  /** The value of an initiative transaction. `id` counts the transactions begun on the channel,
      `its` is when it entered the table, `calls` counts its callbacks. */
  datatype Tx = Tx(
    id: nat, stid: nat, gts: nat, its: nat, raw: bool,
    ooob: Option<Oob>, beginMsg: Option<Body>, rawMsg: Option<Body>,
    ret: Ret, desc: string, ets: nat, ioob: Option<Oob>, endMsg: Option<Body>, calls: nat)

  /** The message of a BEGIN: raw bytes when there are any, otherwise the serialised request. */
  function BeginPdu(t: Tx): XscPdu {
    var body := if t.rawMsg.Some? then t.rawMsg.value else if t.beginMsg.Some? then t.beginMsg.value else Body("", []);
    XscPdu(0, t.ooob, Some(XscTrans(Begin, t.stid, 0, Success, "", body)))
  }

  /** Ending without a reply. */
  function Ended(t: Tx, ret: Ret, desc: string, now: nat): Tx {
    t.(ret := ret, desc := desc, ets := now, calls := t.calls + 1)
  }

  /** Ending by an END. A body that does not parse turns the outcome into an exception and the
      answer into false, but the callback is still made. */
  function Replied(t: Tx, pdu: XscPdu, parses: Body -> bool, now: nat): (Tx, bool)
    requires pdu.trans.Some?
  {
    var x := pdu.trans.value;
    var u := t.(ioob := if pdu.oob.Some? then pdu.oob else t.ioob, ets := now, calls := t.calls + 1);
    if x.body.msg == "" then (u.(ret := x.ret, desc := x.desc), true)
    else if t.raw then (u.(ret := x.ret, desc := x.desc, rawMsg := Some(x.body)), true)
    else if parses(x.body) then (u.(ret := x.ret, desc := x.desc, endMsg := Some(x.body)), true)
    else (u.(ret := Exception, desc := x.desc + "(can not reflect to a pb object from data)"), false)
  }

  class XmsgImTrans {
    var id: nat
    var its: nat
    var stid: nat
    var dtid: nat
    const gts: nat
    const raw: bool
    var ooob: Option<Oob>
    const beginMsg: Option<Body>
    var rawMsg: Option<Body>
    var ret: Ret
    var desc: string
    var ets: nat
    var ioob: Option<Oob>
    var endMsg: Option<Body>
    var calls: nat

    function Value(): Tx
      reads this
    {
      Tx(id, stid, gts, its, raw, ooob, beginMsg, rawMsg, ret, desc, ets, ioob, endMsg, calls)
    }

    constructor (gts: nat, raw: bool, beginMsg: Option<Body>, rawMsg: Option<Body>, ioob: Option<Oob>)
      ensures Value() == Fresh(gts, raw, beginMsg, rawMsg, ioob) && dtid == 0
    {
      this.gts, this.raw, this.beginMsg, this.rawMsg, this.ioob := gts, raw, beginMsg, rawMsg, ioob;
      id, its, stid, dtid, ets, calls := 0, 0, 0, 0, 0, 0;
      ooob, endMsg, ret, desc := None, None, Success, "";
    }

    method AddOob(tag: byte, val: string)
      modifies this`ooob
      ensures ooob == Some((if old(ooob).None? then [] else old(ooob).value) + [(tag, val)])
    {
      if ooob.None? {
        ooob := Some([]);
      }
      ooob := Some(ooob.value + [(tag, val)]);
    }

    /** Adding a list keeps its order; an empty list leaves no header at all. */
    method AddAll(oob: Oob)
      modifies this`ooob
      ensures ooob == Added(old(ooob), oob)
    {
      for i := 0 to |oob|
        invariant ooob == Added(old(ooob), oob[..i])
      {
        AddedSnoc(old(ooob), oob[..i], oob[i]);
        AddOob(oob[i].0, oob[i].1);
        assert oob[..i + 1] == oob[..i] + [oob[i]];
      }
      assert oob[..|oob|] == oob;
    }

    method GetOob(tag: byte) returns (val: Option<string>)
      ensures val == if ioob.None? then None else FirstMatch(ioob.value, tag)
    {
      if ioob.None? {
        return None;
      }
      var kv := ioob.value;
      for i := 0 to |kv|
        invariant FirstMatch(kv, tag) == FirstMatch(kv[i..], tag)
      {
        assert kv[i..][0] == kv[i] && kv[i..][1..] == kv[i + 1..];
        if kv[i].0 != tag {
          continue;
        }
        return Some(kv[i].1);
      }
      return None;
    }

    method HaveOob(tag: byte) returns (have: bool)
      ensures have <==> ioob.Some? && FirstMatch(ioob.value, tag).Some?
    {
      if ioob.None? {
        return false;
      }
      var kv := ioob.value;
      for i := 0 to |kv|
        invariant FirstMatch(kv, tag) == FirstMatch(kv[i..], tag)
      {
        assert kv[i..][0] == kv[i] && kv[i..][1..] == kv[i + 1..];
        if kv[i].0 != tag {
          continue;
        }
        return true;
      }
      return false;
    }

    /** XmsgImTransInitiative::end without a PDU. */
    method EndLocally(ret: Ret, desc: string, now: nat)
      modifies this`ret, this`desc, this`ets, this`calls
      ensures Value() == Ended(old(Value()), ret, desc, now)
    {
      this.ret := ret;
      this.desc := desc;
      this.ets := now;
      calls := calls + 1;
    }

    /** XmsgImTransInitiative::end on an END. */
    method EndByReply(pdu: XscPdu, parses: Body -> bool, now: nat) returns (ok: bool)
      requires pdu.trans.Some?
      modifies this`ret, this`desc, this`ets, this`ioob, this`endMsg, this`rawMsg, this`calls
      ensures (Value(), ok) == Replied(old(Value()), pdu, parses, now)
    {
      var x := pdu.trans.value;
      if pdu.oob.Some? {
        ioob := Some(pdu.oob.value);
      }
      ok := true;
      ret := x.ret;
      desc := x.desc;
      if x.body.msg != "" {
        if !raw {
          if !parses(x.body) {
            ok := false;
            ret := Exception;
            desc := x.desc + "(can not reflect to a pb object from data)";
          } else {
            endMsg := Some(x.body);
          }
        } else {
          rawMsg := Some(x.body);
        }
      }
      ets := now;
      calls := calls + 1;
    }
  }

  function Fresh(gts: nat, raw: bool, beginMsg: Option<Body>, rawMsg: Option<Body>, ioob: Option<Oob>): Tx {
    Tx(0, 0, gts, 0, raw, None, beginMsg, rawMsg, Success, "", 0, ioob, None, 0)
  }

  function Added(ooob: Option<Oob>, oob: Oob): Option<Oob> {
    if oob == [] then ooob else Some((if ooob.None? then [] else ooob.value) + oob)
  }

  lemma AddedSnoc(ooob: Option<Oob>, kv: Oob, e: (byte, string))
    ensures var a := Added(ooob, kv);
            Added(ooob, kv + [e]) == Some((if a.None? then [] else a.value) + [e])
  {
    if ooob.Some? {
      Append3(ooob.value, kv, [e]);
    }
    Append3([], kv, [e]);
    assert kv == [] ==> kv + [e] == [e];
  }

  /** What the caller of begin or forwardBegin hands over; `intercept` is the tag that the 2ne
      form puts first, which marks a request as meant for the network element itself. */
  datatype Request = Request(gts: nat, raw: bool, beginMsg: Option<Body>, rawMsg: Option<Body>,
      intercept: Option<byte>, oob: Oob)

  function Opened(r: Request): (t: Tx)
    ensures t.calls == 0
  {
    var first: Oob := if r.intercept.Some? then [(r.intercept.value, "enable")] else [];
    Fresh(r.gts, r.raw, r.beginMsg, r.rawMsg, None).(ooob := Added(Added(None, first), r.oob))
  }

  /** The part of begin, forwardBegin and forwardBegin2ne before the future is queued. */
  method Open(r: Request) returns (t: XmsgImTrans)
    ensures fresh(t) && t.Value() == Opened(r)
    ensures t.gts == r.gts && t.raw == r.raw && t.beginMsg == r.beginMsg
  {
    t := new XmsgImTrans(r.gts, r.raw, r.beginMsg, r.rawMsg, None);
    if r.intercept.Some? {
      t.AddOob(r.intercept.value, "enable");
    }
    t.AddAll(r.oob);
  }

  /** The passive end of a received PDU keeps its out-of-band list. */
  method Accept(pdu: XscPdu, now: nat) returns (t: XmsgImTrans)
    requires pdu.trans.Some?
    ensures fresh(t) && t.ioob == pdu.oob && t.dtid == pdu.trans.value.stid
  {
    t := new XmsgImTrans(now, false, Some(pdu.trans.value.body), None, pdu.oob);
    t.dtid := pdu.trans.value.stid;
  }

  /** What the caller asked for is what the BEGIN carries, under the id it was given: the raw message
      when there is one, otherwise the request, and whatever entering the table recorded besides. */
  lemma RequestArrives(r: Request, id: nat, stid: nat, now: nat)
    ensures var pdu := BeginPdu(Opened(r).(id := id, stid := stid, its := now));
            && pdu.trans.Some? && pdu.trans.value.kind.Begin? && pdu.trans.value.stid == stid
            && (r.rawMsg.Some? ==> pdu.trans.value.body == r.rawMsg.value)
            && (r.rawMsg.None? && r.beginMsg.Some? ==> pdu.trans.value.body == r.beginMsg.value)
            && pdu.oob == BeginPdu(Opened(r).(stid := stid)).oob
            && (pdu.oob.None? <==> r.intercept.None? && r.oob == [])
  {
  }

  /** Out-of-band data end to end: from the request, through BEGIN and the passive transaction, a
      tag reads as its first value in sending order; a request for the network element itself reads
      as intercepted whatever the caller added. */
  lemma OobArrives(r: Request, stid: nat, tag: byte)
    ensures var arrived := BeginPdu(Opened(r).(stid := stid)).oob;
            var read := if arrived.None? then None else FirstMatch(arrived.value, tag);
            read == if r.intercept == Some(tag) then Some("enable") else FirstMatch(r.oob, tag)
  {
    if r.intercept.Some? {
      var first: Oob := [(r.intercept.value, "enable")];
      assert first[1..] == [] && [] + first == first && first + [] == first;
      FirstMatchAppend(first, r.oob, tag);
    }
    assert [] + r.oob == r.oob;
  }
}
