/**
 * The WebSocket subscriber map `wsConnections` (user id -> connection) and
 * the broadcast of job updates. A JavaScript Map iterates in insertion
 * order and `set` on a present key keeps its position, so the map is kept
 * as a sequence of entries with distinct users.
 */
module Subscribers {
  import opened Common
  import opened Jobs

  datatype Entry = Entry(user: UserId, conn: Conn)

  /** What the server sends on a connection. */
  datatype Outgoing =
    | AuthSucceeded          // {type: 'auth', status: 'success'}
    | AuthRejected           // {type: 'auth', status: 'error', message: 'Invalid token'}
    | Update(update: JobUpdate)

  datatype Delivery = Delivery(to: Conn, message: Outgoing)

  /**
   * An inbound WebSocket message: text that does not parse as a JSON object
   * (or whose fields cannot be read), or an object with optional `type` and
   * `token` string fields.
   */
  datatype Inbound = Unparseable | Json(kind: Option<string>, token: Option<string>)

  function Users(es: seq<Entry>): set<UserId>
    decreases |es|
  {
    if es == [] then {} else {es[0].user} + Users(es[1..])
  }

  function Conns(es: seq<Entry>): set<Conn>
    decreases |es|
  {
    if es == [] then {} else {es[0].conn} + Conns(es[1..])
  }

  /** No user has two entries. */
  ghost predicate DistinctUsers(es: seq<Entry>)
    decreases |es|
  {
    es == [] || (es[0].user !in Users(es[1..]) && DistinctUsers(es[1..]))
  }

  /** The map the entries stand for. */
  function AsMap(es: seq<Entry>): (m: map<UserId, Conn>)
    ensures m.Keys == Users(es)
    decreases |es|
  {
    if es == [] then map[] else AsMap(es[1..])[es[0].user := es[0].conn]
  }

  /** `Map.prototype.set`: overwrite a present user in place, otherwise append. */
  function Assign(es: seq<Entry>, u: UserId, c: Conn): (r: seq<Entry>)
    ensures Users(r) == Users(es) + {u}
    ensures c in Conns(r) && Conns(r) <= Conns(es) + {c}
    ensures |r| == if u in Users(es) then |es| else |es| + 1
    decreases |es|
  {
    if es == [] then [Entry(u, c)]
    else if es[0].user == u then [Entry(u, c)] + es[1..]
    else [es[0]] + Assign(es[1..], u, c)
  }

  /** The close handler: delete the first entry whose connection is `c`, if any. */
  function RemoveFirst(es: seq<Entry>, c: Conn): (r: seq<Entry>)
    ensures Users(r) <= Users(es) && Conns(r) <= Conns(es)
    ensures |r| == if c in Conns(es) then |es| - 1 else |es|
    ensures c !in Conns(es) ==> r == es
    decreases |es|
  {
    if es == [] then []
    else if es[0].conn == c then es[1..]
    else [es[0]] + RemoveFirst(es[1..], c)
  }

  /** `broadcastJobUpdate`: one copy of `m` per entry whose connection is open, in map order. */
  function Fanout(es: seq<Entry>, open: set<Conn>, m: Outgoing): (r: seq<Delivery>)
    ensures |r| <= |es|
    ensures forall i | 0 <= i < |r| :: r[i].to in open && r[i].message == m
    decreases |es|
  {
    if es == [] then []
    else Fanout(es[..|es| - 1], open, m)
         + (if es[|es| - 1].conn in open then [Delivery(es[|es| - 1].conn, m)] else [])
  }

  lemma {:induction false} ConnsAppend(a: seq<Entry>, b: seq<Entry>)
    ensures Conns(a + b) == Conns(a) + Conns(b)
    decreases |a|
  {
    if a != [] {
      ConnsAppend(a[1..], b);
      assert (a + b)[1..] == a[1..] + b;
    } else {
      assert a + b == b;
    }
  }

  function Recipients(ds: seq<Delivery>): set<Conn> {
    set d | d in ds :: d.to
  }

  /** With distinct users the stored connections are exactly the map's values. */
  lemma {:induction false} AsMapValues(es: seq<Entry>)
    requires DistinctUsers(es)
    ensures AsMap(es).Values == Conns(es)
    decreases |es|
  {
    if es != [] {
      var x, tail := es[0], es[1..];
      AsMapValues(tail);
      var m := AsMap(tail);
      assert x.user !in m;
      forall c | c in m[x.user := x.conn].Values ensures c in m.Values + {x.conn} {
        var k :| k in m[x.user := x.conn] && m[x.user := x.conn][k] == c;
        if k != x.user { assert m[k] == c; }
      }
      forall c | c in m.Values + {x.conn} ensures c in m[x.user := x.conn].Values {
        if c != x.conn {
          var k :| k in m && m[k] == c;
          assert k != x.user && m[x.user := x.conn][k] == c;
        } else {
          assert m[x.user := x.conn][x.user] == c;
        }
      }
    }
  }

  /** `set` assigns one user and keeps every other entry: last registration wins. */
  lemma {:induction false} AssignSpec(es: seq<Entry>, u: UserId, c: Conn)
    requires DistinctUsers(es)
    ensures DistinctUsers(Assign(es, u, c))
    ensures Users(Assign(es, u, c)) == Users(es) + {u}
    ensures AsMap(Assign(es, u, c)) == AsMap(es)[u := c]
    decreases |es|
  {
    if es == [] {
      assert AsMap([Entry(u, c)]) == AsMap([])[u := c];
    } else {
      var x, tail := es[0], es[1..];
      var r := Assign(es, u, c);
      if x.user == u {
        assert r == [Entry(u, c)] + tail;
        assert r[1..] == tail;
        MapUpdateTwice(AsMap(tail), u, x.conn, c);
      } else {
        AssignSpec(tail, u, c);
        var r' := Assign(tail, u, c);
        assert r == [x] + r';
        assert r[0] == x && r[1..] == r';
        assert x.user !in Users(r');
        MapUpdateSwap(AsMap(tail), u, c, x.user, x.conn);
      }
    }
  }

  lemma MapUpdateTwice(m: map<UserId, Conn>, k: UserId, a: Conn, b: Conn)
    ensures m[k := a][k := b] == m[k := b]
  {
  }

  lemma MapUpdateSwap(m: map<UserId, Conn>, k: UserId, a: Conn, j: UserId, b: Conn)
    requires k != j
    ensures m[k := a][j := b] == m[j := b][k := a]
  {
  }

  /**
   * Closing deletes at most one entry, one whose connection is the closing
   * one, and leaves elsewhere the map as it was.
   */
  lemma {:induction false} RemoveFirstSpec(es: seq<Entry>, c: Conn)
    requires DistinctUsers(es)
    ensures DistinctUsers(RemoveFirst(es, c))
    ensures Users(RemoveFirst(es, c)) <= Users(es)
    ensures c !in Conns(es) ==> RemoveFirst(es, c) == es
    ensures c in Conns(es) ==>
      exists u | u in AsMap(es) :: AsMap(es)[u] == c && AsMap(RemoveFirst(es, c)) == AsMap(es) - {u}
    decreases |es|
  {
    if es != [] {
      var x, tail := es[0], es[1..];
      if x.conn == c {
        assert AsMap(tail) == AsMap(es) - {x.user};
        assert AsMap(es)[x.user] == c;
      } else {
        RemoveFirstSpec(tail, c);
        var r := RemoveFirst(tail, c);
        var rr := RemoveFirst(es, c);
        assert rr[0] == x && rr[1..] == r;
        if c in Conns(es) {
          var u :| u in AsMap(tail) && AsMap(tail)[u] == c && AsMap(r) == AsMap(tail) - {u};
          assert u != x.user;
          assert AsMap(rr) == AsMap(es) - {u};
        }
      }
    }
  }

  /** The close loop's result: with no match before index i and a match at i, that entry is the one removed. */
  lemma {:induction false} RemoveFirstAt(es: seq<Entry>, c: Conn, i: nat)
    requires i <= |es|
    requires forall k | 0 <= k < i :: es[k].conn != c
    requires i < |es| ==> es[i].conn == c
    ensures RemoveFirst(es, c) == if i < |es| then es[..i] + es[i + 1..] else es
    decreases i
  {
    if i > 0 {
      RemoveFirstAt(es[1..], c, i - 1);
      if i < |es| {
        assert [es[0]] + (es[1..][..i - 1] + es[1..][i..]) == es[..i] + es[i + 1..];
      }
    } else if |es| == 0 {
    }
  }

  /**
   * Every copy carries the same message, and exactly the stored connections
   * that are open receive it.
   */
  lemma {:induction false} FanoutSpec(es: seq<Entry>, open: set<Conn>, m: Outgoing)
    ensures forall d | d in Fanout(es, open, m) :: d.message == m
    ensures Recipients(Fanout(es, open, m)) == Conns(es) * open
    decreases |es|
  {
    if es != [] {
      var n := |es| - 1;
      var init, last := es[..n], es[n];
      FanoutSpec(init, open, m);
      assert es == init + [last];
      ConnsAppend(init, [last]);
      assert Conns([last]) == {last.conn};
      var extra := if last.conn in open then [Delivery(last.conn, m)] else [];
      var f := Fanout(init, open, m);
      assert Fanout(es, open, m) == f + extra;
      assert Recipients(f + extra) == Recipients(f) + Recipients(extra);
    }
  }

  /** Each entry whose connection is open yields exactly one copy. */
  lemma {:induction false} FanoutCount(es: seq<Entry>, open: set<Conn>, m: Outgoing)
    ensures |Fanout(es, open, m)| == |set i | 0 <= i < |es| && es[i].conn in open|
    decreases |es|
  {
    if es != [] {
      var n := |es| - 1;
      var init := es[..n];
      FanoutCount(init, open, m);
      var all := set i | 0 <= i < |es| && es[i].conn in open;
      var pre := set i | 0 <= i < n && init[i].conn in open;
      assert pre == set i | 0 <= i < n && es[i].conn in open;
      if es[n].conn in open {
        assert all == pre + {n};
      } else {
        assert all == pre;
      }
    }
  }

  /**
   * Re-authenticating a user on a new connection: once nothing else holds
   * the old connection, broadcasts stop reaching it and reach the new one
   * if it is open.
   */
  lemma ReplacedConnectionStopsReceiving(es: seq<Entry>, open: set<Conn>, u: UserId, prev: Conn, next: Conn, m: Outgoing)
    requires DistinctUsers(es) && prev != next
    requires forall v | v in AsMap(es) && AsMap(es)[v] == prev :: v == u
    ensures prev !in Recipients(Fanout(Assign(es, u, next), open, m))
    ensures next in open ==> next in Recipients(Fanout(Assign(es, u, next), open, m))
  {
    var a := Assign(es, u, next);
    AssignSpec(es, u, next);
    AsMapValues(a);
    FanoutSpec(a, open, m);
    assert AsMap(a)[u] == next;
  }

  /** The live state of the WebSocket side of the server. */
  class Hub {
    /** `wsConnections`, in insertion order. */
    var entries: seq<Entry>
    /** The connections whose `readyState` is OPEN. */
    var open: set<Conn>
    /** Every message sent so far, in order. */
    var outbox: seq<Delivery>
    /** Every connection that has ever been opened; a new socket is a new connection. */
    ghost var used: set<Conn>

    ghost predicate Valid()
      reads this
    {
      DistinctUsers(entries) && open <= used && Conns(entries) <= used
    }

    /** The subscriber map as the server sees it. */
    function Subscribers(): map<UserId, Conn>
      reads this
    {
      AsMap(entries)
    }

    constructor ()
      ensures Valid() && entries == [] && open == {} && outbox == [] && used == {}
    {
      entries, open, outbox := [], {}, [];
      used := {};
    }

    /** A client connects on a connection never seen before: its socket is open and no entry holds it yet. */
    method Connect(c: Conn)
      requires Valid() && c !in used
      modifies this
      ensures Valid() && open == old(open) + {c} && used == old(used) + {c}
      ensures entries == old(entries) && outbox == old(outbox)
      ensures c !in Conns(entries)
    {
      open := open + {c};
      used := used + {c};
    }

    /**
     * A message arrives on `c`. `verdict` is what verifying the token gives:
     * the user id it carries, or None when it does not verify.
     */
    method Receive(c: Conn, msg: Inbound, verdict: Option<UserId>)
      requires Valid() && c in used
      modifies this
      ensures Valid() && open == old(open) && used == old(used)
      ensures (msg.Json? && msg.kind == Some("auth") && Present(msg.token)) ==>
        if verdict.Some? then
          entries == Assign(old(entries), verdict.value, c) && outbox == old(outbox) + [Delivery(c, AuthSucceeded)]
        else
          entries == old(entries) && outbox == old(outbox) + [Delivery(c, AuthRejected)]
      ensures !(msg.Json? && msg.kind == Some("auth") && Present(msg.token)) ==>
        entries == old(entries) && outbox == old(outbox)
      ensures (msg.Json? && msg.kind == Some("auth") && Present(msg.token) && verdict.Some?) ==>
        Subscribers() == old(Subscribers())[verdict.value := c]
    {
      if msg.Json? && msg.kind == Some("auth") && Present(msg.token) {
        match verdict
        case Some(user) =>
          AssignSpec(entries, user, c);
          entries := Assign(entries, user, c);
          outbox := outbox + [Delivery(c, AuthSucceeded)];
        case None =>
          outbox := outbox + [Delivery(c, AuthRejected)];
      }
    }

    /** The socket `c` has closed: it is no longer open and its first entry, if any, is deleted. */
    method Close(c: Conn)
      requires Valid()
      modifies this
      ensures Valid() && open == old(open) - {c} && outbox == old(outbox) && used == old(used)
      ensures entries == RemoveFirst(old(entries), c)
    {
      open := open - {c};
      var i := 0;
      while i < |entries|
        invariant 0 <= i <= |entries|
        invariant entries == old(entries)
        invariant forall k | 0 <= k < i :: entries[k].conn != c
      {
        if entries[i].conn == c {
          RemoveFirstAt(entries, c, i);
          RemoveFirstSpec(entries, c);
          entries := entries[..i] + entries[i + 1..];
          return;
        }
        i := i + 1;
      }
      RemoveFirstAt(entries, c, i);
    }

    /** `broadcastJobUpdate`: send the update to every stored connection that is open. */
    method Broadcast(u: JobUpdate)
      modifies this`outbox
      ensures entries == old(entries) && open == old(open)
      ensures outbox == old(outbox) + Fanout(entries, open, Update(u))
    {
      var i := 0;
      while i < |entries|
        invariant 0 <= i <= |entries|
        invariant outbox == old(outbox) + Fanout(entries[..i], open, Update(u))
      {
        assert entries[..i + 1][..i] == entries[..i];
        if entries[i].conn in open {
          outbox := outbox + [Delivery(entries[i].conn, Update(u))];
        }
        i := i + 1;
      }
      assert entries[..i] == entries;
    }
  }
}
