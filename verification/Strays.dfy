/** Instances whose key field was edited: their writes refuse, and nothing else of the call sees them. */
module Strays {
  import opened Values
  import opened Entities
  import opened IdentityMap
  import opened Writes
  import opened Calls
  import opened Frames
  import opened Undoing
  import opened Restoring
  import opened KeyRules

  ghost function Written(all: seq<Op>): set<Ptr> {
    set op | op in all && OpInstance(op).Some? :: op.p
  }

  predicate InsertsInstance(op: Op) {
    op.FlushInsert? || op.Insert?
  }

  /** The instance is tracked under a key it no longer holds. */
  predicate Stale(mem: Mem, p: Ptr) {
    EntryOf(mem.ids, p).Some? && EntryOf(mem.ids, p).value.key != KeyOf(mem, p)
  }

  /** The written instances that are not stale. */
  ghost function Firm(mem: Mem, all: seq<Op>): set<Ptr> {
    set p | p in Written(all) && !Stale(mem, p)
  }

  /** The firm instances are settled, the inserts are all of firm ones, and no stale one's statement waits. */
  ghost predicate Held(e: Env, all: seq<Op>, upcoming: set<Ptr>, mem: Mem, ws: seq<Pending>) {
    && Written(all) <= mem.inst.Keys
    && Keyed(e, Firm(mem, all), upcoming, mem, ws) && Waiting(ws) <= Firm(mem, all)
    && (forall op :: op in all && InsertsInstance(op) ==> op.p in Firm(mem, all))
  }

  lemma SettledIsFirm(e: Env, mem: Mem, p: Ptr)
    requires SettledAt(e, mem, p)
    ensures !Stale(mem, p)
  {
  }

  /** The write of a stale instance refuses, whatever it is, unless it is an insert. */
  lemma StaleRefuses(e: Env, mem: Mem, op: Op)
    requires OpInstance(op).Some? && !InsertsInstance(op) && Stale(mem, op.p)
    ensures Prepare(e, Flow(e, mem, op), op).issue.Refused?
  {
    FlowOnly(e, mem, op);
    assert WriteIdentity(e, mem, op.p) == Closed;
  }

  lemma CompleteKeepsHeld(e: Env, all: seq<Op>, upcoming: set<Ptr>, mem: Mem, journal: seq<Undo>, ws: seq<Pending>,
      reply: Reply)
    requires Consistent(mem.ids) && Numbered(mem.ids) && OneWriteEach(ws) && ws != []
    requires Held(e, all, upcoming, mem, ws)
    requires StillHolds(mem.ids, ws[0].write) && CapturedFor(journal, ws[0].write)
    requires FreshKeys(e, Completed(mem, ws[0].write, reply))
    ensures Held(e, all, upcoming, Complete(e, mem, ws[0].write, reply).mem, ws[1..])
  {
    var w := ws[0].write;
    var after := Complete(e, mem, w, reply).mem;
    var firm := Firm(mem, all);
    CompleteKeepsKeyed(e, firm, upcoming, mem, journal, ws, reply);
    CompleteOnly(e, mem, w, reply);
    forall p | p in firm
      ensures p in Firm(after, all)
    {
      assert SettledAt(e, after, p);
    }
    forall p | p in Firm(after, all)
      ensures SettledAt(e, after, p)
    {
      if p !in firm {
        StaleOnlyLoses(e, mem, journal, ws, reply, p);
      }
    }
    FirmerIsKeyed(e, firm, Firm(after, all), upcoming, after, ws[1..]);
  }

  /** A stale instance none of whose statements waits stays as it is or loses its entry. */
  lemma StaleOnlyLoses(e: Env, mem: Mem, journal: seq<Undo>, ws: seq<Pending>, reply: Reply, p: Ptr)
    requires Consistent(mem.ids) && Numbered(mem.ids) && ws != [] && Stale(mem, p) && p !in Waiting(ws)
    requires StillHolds(mem.ids, ws[0].write) && CapturedFor(journal, ws[0].write)
    ensures var after := Complete(e, mem, ws[0].write, reply).mem; Stale(after, p) || EntryOf(after.ids, p) == None
  {
    assert ws[0] in ws;
    CompleteOnly(e, mem, ws[0].write, reply);
    CompleteEffect(e, mem, journal, ws[0].write, reply);
  }

  /** More settled instances whose statements do not wait. */
  lemma FirmerIsKeyed(e: Env, firm: set<Ptr>, firmer: set<Ptr>, upcoming: set<Ptr>, mem: Mem, ws: seq<Pending>)
    requires Keyed(e, firm, upcoming, mem, ws) && Waiting(ws) <= firm <= firmer && Settled(e, mem, firmer)
    ensures Keyed(e, firmer, upcoming, mem, ws)
  {
    forall i, j | 0 <= i < |ws| && 0 <= j < |ws| && i != j
      ensures Apart(firmer, mem, ws[i], ws[j])
    {
      assert Apart(firm, mem, ws[i], ws[j]) && ws[j] in ws;
      assert Instance(ws[j].write).Some? ==> Instance(ws[j].write).value in Waiting(ws);
    }
  }

  /** An operation on a firm instance, or on none, prepares past the message. */
  lemma PrepareKeepsHeld(e: Env, all: seq<Op>, upcoming: set<Ptr>, mem: Mem, ws: seq<Pending>, op: Op)
    requires Held(e, all, upcoming, mem, ws) && Free(e, mem, ws, op) && InPhase(upcoming, op)
    requires OpInstance(op).Some? ==> op.p in Firm(mem, all)
    ensures Held(e, all, upcoming, Prepare(e, Flow(e, mem, op), op).mem, ws)
    ensures Firm(Prepare(e, Flow(e, mem, op), op).mem, all) == Firm(mem, all)
  {
    var flowed := Flow(e, mem, op);
    var after := Prepare(e, flowed, op).mem;
    FlowOnly(e, mem, op);
    PrepareOnly(e, flowed, op);
    PrepareKeepsKeyed(e, Firm(mem, all), upcoming, mem, ws, op);
    forall p | p in Written(all)
      ensures Stale(after, p) == Stale(mem, p)
    {
      if OpInstance(op) == Some(p) {
        assert SettledAt(e, after, p);
      }
    }
    assert Firm(after, all) == Firm(mem, all);
  }

  lemma JoinKeepsHeld(e: Env, all: seq<Op>, upcoming: set<Ptr>, mem: Mem, ws: seq<Pending>, op: Op)
    requires Consistent(mem.ids) && OneWriteEach(ws)
    requires Held(e, all, upcoming, mem, ws) && Free(e, mem, ws, op) && InPhase(upcoming, op)
    requires OpInstance(op).Some? ==> op.p in Firm(mem, all)
    requires Prepare(e, Flow(e, mem, op), op).issue.Issued?
    ensures var prepared := Prepare(e, Flow(e, mem, op), op);
            var v := Pending(prepared.issue.write, KeyNow(e, prepared.mem, op));
            Held(e, all, if op.FlushInsert? then upcoming - {op.p} else upcoming, prepared.mem, ws + [v])
  {
    PrepareKeepsHeld(e, all, upcoming, mem, ws, op);
    JoinKeepsKeyed(e, Firm(mem, all), upcoming, mem, ws, op);
  }

  /** A firm instance, or one whose write refuses: what an operation of the call that issues is on. */
  lemma IssuedIsFirm(e: Env, all: seq<Op>, upcoming: set<Ptr>, mem: Mem, ws: seq<Pending>, op: Op)
    requires Held(e, all, upcoming, mem, ws) && op in all && OpInstance(op).Some?
    ensures op.p in Firm(mem, all) || Prepare(e, Flow(e, mem, op), op).issue.Refused?
  {
    if op.p !in Firm(mem, all) {
      assert op.p in Written(all);
      StaleRefuses(e, mem, op);
    }
  }
}
