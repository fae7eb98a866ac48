/** The parts of a PDU that the transaction layer reads and writes. */
module Proto {
  import opened Codec

  // Transaction ids are 32 bits wide.
  const TIDS: nat := 0x1_0000_0000

  // One second of the millisecond clock.
  const SECOND: nat := 1000

  /** Out-of-band data: a list of tagged strings. */
  type Oob = seq<(byte, string)>

  datatype Ret = Success | Failure | Exception | TimedOut | Other(code: nat)

  datatype Kind = Begin | End | Unidirection | Partial | Unknown

  datatype Body = Body(msg: string, dat: seq<byte>)

  datatype XscTrans = XscTrans(kind: Kind, stid: nat, dtid: nat, ret: Ret, desc: string, body: Body)

  /** A PDU: the indicator byte, the out-of-band list of its header if there is one, and the
      transaction layer if there is one. */
  datatype XscPdu = XscPdu(indicator: byte, oob: Option<Oob>, trans: Option<XscTrans>)

  /** The value of the first entry with this tag. */
  function FirstMatch(kv: Oob, tag: byte): Option<string> {
    if kv == [] then None
    else if kv[0].0 == tag then Some(kv[0].1)
    else FirstMatch(kv[1..], tag)
  }

  /** What a first match means: the value stands at some place, and no place before it has the tag. */
  lemma {:induction false} FirstMatchExact(kv: Oob, tag: byte)
    ensures FirstMatch(kv, tag).None? <==> forall i | 0 <= i < |kv| :: kv[i].0 != tag
    ensures FirstMatch(kv, tag).Some? ==>
              exists i | 0 <= i < |kv| :: kv[i] == (tag, FirstMatch(kv, tag).value)
                  && forall j | 0 <= j < i :: kv[j].0 != tag
  {
    if kv != [] && kv[0].0 != tag {
      FirstMatchExact(kv[1..], tag);
      if FirstMatch(kv, tag).Some? {
        var i :| 0 <= i < |kv[1..]| && kv[1..][i] == (tag, FirstMatch(kv, tag).value)
            && forall j | 0 <= j < i :: kv[1..][j].0 != tag;
        assert kv[i + 1] == (tag, FirstMatch(kv, tag).value);
        forall j | 0 <= j < i + 1
          ensures kv[j].0 != tag
        {
          if j > 0 { assert kv[j] == kv[1..][j - 1]; }
        }
      } else {
        forall i | 0 <= i < |kv|
          ensures kv[i].0 != tag
        {
          if i > 0 { assert kv[i] == kv[1..][i - 1]; }
        }
      }
    }
  }

  lemma {:induction false} FirstMatchAppend(a: Oob, b: Oob, tag: byte)
    ensures FirstMatch(a + b, tag) == if FirstMatch(a, tag).Some? then FirstMatch(a, tag) else FirstMatch(b, tag)
  {
    if a == [] {
      assert a + b == b;
    } else {
      FirstMatchAppend(a[1..], b, tag);
      assert (a + b)[1..] == a[1..] + b;
    }
  }
}
