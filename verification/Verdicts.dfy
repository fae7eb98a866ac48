/** Dispatch, exactly: which PDUs close the channel, and what each of them does to it. */
module Verdicts {
  import opened Codec
  import opened Dispatch
  import opened Proto
  import opened Registry
  import opened Trans
  import opened TransTable

  /** No ping bit, a transaction layer, and a manager to ask: the PDU gets as far as the interceptor. */
  ghost predicate Asked(o: Office, p: XscPdu) {
    p.indicator & o.ping == 0 && p.trans.Some? && o.mgr.Some?
  }

  /** And past it: there is none, or it takes no part. */
  ghost predicate Passes(o: Office, p: XscPdu) {
    Asked(o, p) && (o.mgr.value.itcp.None? || o.mgr.value.itcp.value(p) == Disabled)
  }

  /** A name is registered with a message of this kind, and the bytes parse as it; no bytes always do. */
  ghost predicate Known(o: Office, name: string, desc: Option<string>, dat: seq<byte>) {
    && o.mgr.Some? && name in o.mgr.value.msgs && desc.Some?
    && (|dat| == 0 || o.parse(desc.value, dat))
  }

  /** A request that is understood. */
  ghost predicate Request(o: Office, p: XscPdu) {
    && Passes(o, p) && p.trans.value.kind == Begin && p.trans.value.body.msg in o.mgr.value.msgs
    && Known(o, p.trans.value.body.msg, o.mgr.value.msgs[p.trans.value.body.msg].begin, p.trans.value.body.dat)
  }

  /** A notice that is understood. */
  ghost predicate Notice(o: Office, p: XscPdu) {
    && Passes(o, p) && p.trans.value.kind == Unidirection && p.trans.value.body.msg in o.mgr.value.msgs
    && Known(o, p.trans.value.body.msg, o.mgr.value.msgs[p.trans.value.body.msg].uni, p.trans.value.body.dat)
  }

  /** Its sender may make it: it needs no user, or one is bound. */
  ghost predicate Allowed(o: Office, s: Actor, p: XscPdu) {
    && p.trans.Some? && o.mgr.Some? && p.trans.value.body.msg in o.mgr.value.msgs
    && (!o.mgr.value.msgs[p.trans.value.body.msg].auth || s.usr)
  }

  /** An END whose message means nothing to the transaction that waits for it. */
  ghost predicate Garbled(o: Office, c: Client, s: Actor, p: XscPdu) {
    && Passes(o, p) && p.trans.value.kind == End && p.trans.value.dtid in s.table.pending
    && !s.table.pending[p.trans.value.dtid].raw
    && |p.trans.value.body.msg| > 0 && !c.parses(p.trans.value.body)
  }

  lemma BeginVerdict(o: Office, c: Client, s: Actor, p: XscPdu)
    requires Passes(o, p) && p.trans.value.kind == Begin
    ensures var (s', ok) := HandleBegin(o, o.mgr.value, c, s, p);
            && (ok <==> Request(o, p) && Allowed(o, s, p))
            && s'.started == (if Request(o, p) then s.started + [ServedOf(p)] else s.started)
            && s'.called == (if Request(o, p) && Allowed(o, s, p) then s.called + [ServedOf(p)] else s.called)
            && s'.usr == (s.usr || (Request(o, p) && Allowed(o, s, p) && o.serve(ServedOf(p)).binds))
            && s'.notified == s.notified && s'.pongs == s.pongs && s'.clock == s.clock
            && s'.table.done == s.table.done
  {
    hide StartAll;
  }

  lemma NoticeVerdict(o: Office, c: Client, s: Actor, p: XscPdu)
    requires Passes(o, p) && p.trans.value.kind == Unidirection
    ensures var (s', ok) := HandleUnidirection(o, o.mgr.value, c, s, p);
            && (ok <==> Notice(o, p) && Allowed(o, s, p))
            && s'.notified
               == (if Notice(o, p) && Allowed(o, s, p) then s.notified + [p.trans.value.body] else s.notified)
            && s'.usr == (s.usr || (Notice(o, p) && Allowed(o, s, p) && o.notify(p.trans.value.body).binds))
            && s'.started == s.started && s'.called == s.called && s'.pongs == s.pongs && s'.clock == s.clock
            && s'.table.done == s.table.done
  {
    hide StartAll;
  }

  lemma EndVerdict(o: Office, c: Client, s: Actor, p: XscPdu)
    requires Passes(o, p) && p.trans.value.kind == End
    ensures var (s', ok) := HandleEnd(c, s, p);
            && (!ok <==> Garbled(o, c, s, p))
            && s' == s.(table := s'.table)
            && (p.trans.value.dtid !in s.table.pending ==> s' == s)
            && (p.trans.value.dtid in s.table.pending ==> |s'.table.done| == |s.table.done| + 1)
  {
    hide StartAll;
  }

  /** The channel closes on a PDU exactly when it has neither the ping bit nor a transaction layer;
      when there is no manager or its interceptor fails; when it is of a kind that dispatch does not
      know; when it is a request or notice that is not registered as such, does not parse or needs a
      user where none is bound; or when it is an END whose message does not parse for the transaction
      that waits for it. An END for which nothing waits, a partial one, and one that the interceptor
      took or refused leave it open. */
  lemma AnswerExact(o: Office, c: Client, s: Actor, p: XscPdu)
    ensures !Handle(o, c, s, p).1 <==>
              && p.indicator & o.ping == 0
              && (|| p.trans.None? || o.mgr.None?
                  || (o.mgr.value.itcp.Some? && o.mgr.value.itcp.value(p) == Failed)
                  || (&& Passes(o, p)
                      && match p.trans.value.kind
                         case Begin => !Request(o, p) || !Allowed(o, s, p)
                         case Unidirection => !Notice(o, p) || !Allowed(o, s, p)
                         case End => Garbled(o, c, s, p)
                         case Partial => false
                         case Unknown => true))
  {
    if Passes(o, p) {
      if p.trans.value.kind == Begin { BeginVerdict(o, c, s, p); }
      if p.trans.value.kind == Unidirection { NoticeVerdict(o, c, s, p); }
      if p.trans.value.kind == End { EndVerdict(o, c, s, p); }
    }
    hide HandleBegin, HandleUnidirection, HandleEnd, Request, Notice, Allowed, Garbled;
  }

  /** What a PDU does, field by field. */
  lemma EffectExact(o: Office, c: Client, s: Actor, p: XscPdu)
    ensures var s' := Handle(o, c, s, p).0;
            && s'.pongs == (if p.indicator & o.ping != 0 && p.indicator != o.pong then s.pongs + 1 else s.pongs)
            && s'.started == (if Request(o, p) then s.started + [ServedOf(p)] else s.started)
            && s'.called == (if Request(o, p) && Allowed(o, s, p) then s.called + [ServedOf(p)] else s.called)
            && s'.notified
               == (if Notice(o, p) && Allowed(o, s, p) then s.notified + [p.trans.value.body] else s.notified)
            && s'.clock == s.clock
            && (s'.usr <==>
                  || s.usr
                  || (Request(o, p) && Allowed(o, s, p) && o.serve(ServedOf(p)).binds)
                  || (Notice(o, p) && Allowed(o, s, p) && o.notify(p.trans.value.body).binds))
            && (s'.table.done != s.table.done <==>
                  Passes(o, p) && p.trans.value.kind == End && p.trans.value.dtid in s.table.pending)
  {
    if Passes(o, p) {
      if p.trans.value.kind == Begin { BeginVerdict(o, c, s, p); }
      if p.trans.value.kind == Unidirection { NoticeVerdict(o, c, s, p); }
      if p.trans.value.kind == End { EndVerdict(o, c, s, p); }
    }
    hide HandleBegin, HandleUnidirection, HandleEnd, Known, Allowed;
  }

  /** A late or unknown END leaves the channel as it was. */
  lemma LateEndHarmless(o: Office, c: Client, s: Actor, p: XscPdu)
    requires Passes(o, p) && p.trans.value.kind == End && p.trans.value.dtid !in s.table.pending
    ensures Handle(o, c, s, p) == (s, true)
  {
  }
}
