/** One client per device: the attached table, its guards, and every interleaving of import sessions. */
module Attach {

  // ----- the table on the heap -----

  class AttachGuard {
    const state: DaemonState
    const busid: string

    constructor (state: DaemonState, busid: string)
      ensures this.state == state && this.busid == busid
    {
      this.state := state;
      this.busid := busid;
    }

    /** `Drop for AttachGuard`. */
    method Drop()
      requires state.Valid() && this in state.live
      modifies state
      ensures state.Valid() && state.live == old(state.live) - {this}
      ensures state.attached == Freed(old(state.attached), busid)
    {
      state.attached := state.attached - {busid};
      state.live := state.live - {this};
    }
  }

  class DaemonState {
    var attached: map<string, string>
    ghost var live: set<AttachGuard>   // guards handed out and not yet dropped

    /** The keys are exactly the busids of the live guards, one guard each. */
    ghost predicate Valid()
      reads this
    {
      && (forall g | g in live :: g.state == this && g.busid in attached)
      && (forall b | b in attached :: exists g :: g in live && g.busid == b)
      && (forall g, h | g in live && h in live && g.busid == h.busid :: g == h)
    }

    constructor ()
      ensures Valid() && attached == map[] && live == {}
    {
      attached := map[];
      live := {};
    }

    method TryAttach(busid: string, peer: string) returns (guard: AttachGuard?)
      requires Valid()
      modifies this
      ensures Valid()
      ensures guard == null <==> busid in old(attached)
      ensures guard == null ==> attached == old(attached) && live == old(live)
      ensures guard != null ==>
                && fresh(guard) && guard.state == this && guard.busid == busid
                && live == old(live) + {guard} && attached == Claimed(old(attached), busid, peer)
    {
      if busid in attached {
        return null;
      }
      attached := attached[busid := peer];
      guard := new AttachGuard(this, busid);
      live := live + {guard};
      assert forall b | b in attached :: exists g :: g in live && g.busid == b by {
        forall b | b in attached ensures exists g :: g in live && g.busid == b {
          if b == busid {
            assert guard in live;
          } else {
            var g :| g in old(live) && g.busid == b;
            assert g in live;
          }
        }
      }
    }
  }

  function Claimed(m: map<string, string>, busid: string, peer: string): map<string, string> {
    m[busid := peer]
  }

  function Freed(m: map<string, string>, busid: string): map<string, string> {
    m - {busid}
  }

  // ----- sessions -----

  /** Where an import session is. From Opening to Leaving it owns a guard for `busid`. */
  datatype Pc =
    | Start
    | Checked(busid: string)    // device found and permitted
    | Opening(busid: string)
    | Replying(busid: string)
    | Serving(busid: string)    // in the URB loop
    | Leaving(busid: string)    // returned, guard not yet dropped
    | Ended

  datatype Client = Client(peer: string, pc: Pc, claims: nat, frees: nat)

  datatype World = World(attached: map<string, string>, clients: seq<Client>)

  datatype Event =
    | Connect(peer: string)
    | Request(i: nat, busid: string, ok: bool)  // ok: listed and permitted
    | TryAttach(i: nat)
    | Open(i: nat, ok: bool)
    | Reply(i: nat, ok: bool)
    | Stop(i: nat)                              // EOF, read error, devid mismatch, unknown command, failed write
    | DropGuard(i: nat)

  predicate Holds(c: Client) {
    c.pc.Opening? || c.pc.Replying? || c.pc.Serving? || c.pc.Leaving?
  }

  predicate CanHappen(w: World, e: Event) {
    match e
    case Connect(_) => true
    case Request(i, _, _) => i < |w.clients| && w.clients[i].pc.Start?
    case TryAttach(i) => i < |w.clients| && w.clients[i].pc.Checked?
    case Open(i, _) => i < |w.clients| && w.clients[i].pc.Opening?
    case Reply(i, _) => i < |w.clients| && w.clients[i].pc.Replying?
    case Stop(i) => i < |w.clients| && w.clients[i].pc.Serving?
    case DropGuard(i) => i < |w.clients| && w.clients[i].pc.Leaving?
  }

  function MoveTo(w: World, i: nat, pc: Pc): World
    requires i < |w.clients|
  {
    w.(clients := w.clients[i := w.clients[i].(pc := pc)])
  }

  function Happen(w: World, e: Event): World
    requires CanHappen(w, e)
  {
    match e
    case Connect(peer) => w.(clients := w.clients + [Client(peer, Start, 0, 0)])
    case Request(i, busid, ok) => MoveTo(w, i, if ok then Checked(busid) else Ended)
    case TryAttach(i) =>
      var c := w.clients[i];
      if c.pc.busid in w.attached then MoveTo(w, i, Ended)
      else World(Claimed(w.attached, c.pc.busid, c.peer),
                 w.clients[i := c.(pc := Opening(c.pc.busid), claims := c.claims + 1)])
    case Open(i, ok) =>
      var b := w.clients[i].pc.busid;
      MoveTo(w, i, if ok then Replying(b) else Leaving(b))
    case Reply(i, ok) =>
      var b := w.clients[i].pc.busid;
      MoveTo(w, i, if ok then Serving(b) else Leaving(b))
    case Stop(i) => MoveTo(w, i, Leaving(w.clients[i].pc.busid))
    case DropGuard(i) =>
      var c := w.clients[i];
      World(Freed(w.attached, c.pc.busid), w.clients[i := c.(pc := Ended, frees := c.frees + 1)])
  }

  predicate History(w: World, es: seq<Event>)
    decreases |es|
  {
    es == [] || (CanHappen(w, es[0]) && History(Happen(w, es[0]), es[1..]))
  }

  function After(w: World, es: seq<Event>): World
    requires History(w, es)
    decreases |es|
  {
    if es == [] then w else After(Happen(w, es[0]), es[1..])
  }

  /** Some session holds `busid`, under the peer label the table records. */
  predicate HeldBy(w: World, busid: string, i: nat)
    requires busid in w.attached
  {
    i < |w.clients| && Holds(w.clients[i]) && w.clients[i].pc.busid == busid && w.attached[busid] == w.clients[i].peer
  }

  /** No two live guards share a busid, and each has its key in the table. */
  predicate Disjoint(w: World) {
    && (forall i | 0 <= i < |w.clients| && Holds(w.clients[i]) :: w.clients[i].pc.busid in w.attached)
    && (forall i, j | 0 <= i < j < |w.clients| && Holds(w.clients[i]) && Holds(w.clients[j]) ::
          w.clients[i].pc.busid != w.clients[j].pc.busid)
  }

  ghost predicate Exclusive(w: World) {
    && Disjoint(w)
    && (forall b | b in w.attached :: exists i :: HeldBy(w, b, i))
  }

  /** A session claims at most one slot, frees it at most once, and has freed it when it has ended. */
  predicate Balanced(w: World) {
    forall i | 0 <= i < |w.clients| ::
      var c := w.clients[i];
      && c.claims == c.frees + (if Holds(c) then 1 else 0)
      && c.claims <= 1
      && (c.pc.Start? || c.pc.Checked? ==> c.claims == 0)
  }

  /** Every holder of an untouched slot is still there after the step. */
  lemma HoldersStay(w: World, e: Event, b: string, i: nat)
    requires CanHappen(w, e) && b in w.attached && HeldBy(w, b, i)
    requires !(e.DropGuard? && e.i == i)
    ensures var w' := Happen(w, e); b in w'.attached ==> HeldBy(w', b, i)
  {
  }

  lemma DisjointStep(w: World, e: Event)
    requires Disjoint(w) && CanHappen(w, e)
    ensures Disjoint(Happen(w, e))
  {
  }

  lemma ExclusiveStep(w: World, e: Event)
    requires Exclusive(w) && CanHappen(w, e)
    ensures Exclusive(Happen(w, e))
  {
    DisjointStep(w, e);
    hide Disjoint;
    var w' := Happen(w, e);
    forall b | b in w'.attached
      ensures exists i :: HeldBy(w', b, i)
    {
      if b in w.attached {
        var i :| HeldBy(w, b, i);
        HoldersStay(w, e, b, i);
      } else {
        assert HeldBy(w', b, e.i);
      }
    }
  }

  lemma BalancedStep(w: World, e: Event)
    requires Balanced(w) && CanHappen(w, e)
    ensures Balanced(Happen(w, e))
  {
  }

  /**
   * Over every interleaving of sessions: the table's keys are exactly the busids of live guards, no two
   * sessions are past the attach on one busid, and a session frees what it claimed exactly once.
   */
  lemma {:induction false} AttachExclusivity(w: World, es: seq<Event>)
    requires Exclusive(w) && Balanced(w) && History(w, es)
    ensures Exclusive(After(w, es)) && Balanced(After(w, es))
    decreases |es|
  {
    hide Exclusive, Balanced, CanHappen, Happen;
    if es != [] {
      ExclusiveStep(w, es[0]);
      BalancedStep(w, es[0]);
      AttachExclusivity(Happen(w, es[0]), es[1..]);
    }
  }

  lemma InitiallyExclusive()
    ensures Exclusive(World(map[], [])) && Balanced(World(map[], []))
  {
  }

  /** Whatever way a session leaves, its device is attachable again: a waiting request then succeeds. */
  lemma FreedIsAttachable(w: World, i: nat, j: nat)
    requires Exclusive(w) && CanHappen(w, DropGuard(i))
    requires j < |w.clients| && w.clients[j].pc == Checked(w.clients[i].pc.busid)
    ensures var w' := Happen(w, DropGuard(i));
            && CanHappen(w', TryAttach(j))
            && Happen(w', TryAttach(j)).clients[j].pc == Opening(w.clients[i].pc.busid)
    ensures Happen(w, TryAttach(j)).clients[j].pc == Ended
  {
    assert Holds(w.clients[i]);
  }

  /** A permitted request for a device nobody holds, with open and reply succeeding, ends up serving it. */
  lemma FreeIsServed(w: World, i: nat, busid: string)
    requires i < |w.clients| && w.clients[i].pc.Start? && busid !in w.attached
    ensures var es := [Request(i, busid, true), TryAttach(i), Open(i, true), Reply(i, true)];
            && History(w, es)
            && After(w, es).clients ==
               w.clients[i := w.clients[i].(pc := Serving(busid), claims := w.clients[i].claims + 1)]
            && After(w, es).attached == w.attached[busid := w.clients[i].peer]
  {
    var w1 := Happen(w, Request(i, busid, true));
    var w2 := Happen(w1, TryAttach(i));
    var w3 := Happen(w2, Open(i, true));
    var w4 := Happen(w3, Reply(i, true));
    var es := [Request(i, busid, true), TryAttach(i), Open(i, true), Reply(i, true)];
    assert es[1..] == [TryAttach(i), Open(i, true), Reply(i, true)];
    assert es[1..][1..] == [Open(i, true), Reply(i, true)];
    assert es[1..][1..][1..] == [Reply(i, true)] && es[1..][1..][1..][1..] == [];
    assert History(w3, [Reply(i, true)]) && After(w3, [Reply(i, true)]) == w4;
    assert History(w2, es[1..][1..]) && After(w2, es[1..][1..]) == w4;
    assert History(w1, es[1..]) && After(w1, es[1..]) == w4;
  }

  /** A request that is not permitted, or for a device somebody holds, ends; a failed open or reply frees the slot. */
  lemma FailuresEnd(w: World, i: nat)
    ensures forall b :: CanHappen(w, Request(i, b, false)) ==> Happen(w, Request(i, b, false)).clients[i].pc == Ended
    ensures CanHappen(w, TryAttach(i)) && w.clients[i].pc.busid in w.attached ==>
              Happen(w, TryAttach(i)).clients[i].pc == Ended && Happen(w, TryAttach(i)).attached == w.attached
    ensures CanHappen(w, Open(i, false)) ==>
              Happen(Happen(w, Open(i, false)), DropGuard(i)).attached == w.attached - {w.clients[i].pc.busid}
    ensures CanHappen(w, Reply(i, false)) ==>
              Happen(Happen(w, Reply(i, false)), DropGuard(i)).attached == w.attached - {w.clients[i].pc.busid}
    ensures CanHappen(w, Stop(i)) ==>
              Happen(Happen(w, Stop(i)), DropGuard(i)).attached == w.attached - {w.clients[i].pc.busid}
  {
  }
}
