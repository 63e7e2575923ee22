/**
 Fan-out to the members of a room. The relay iterates a room's member set
 with `for ... of`, testing each member before sending; iteration order of a
 set is not part of this model, so a member set is first listed in some
 order without repetition (`Snapshot`) and the properties are stated over
 the set of recipients.
 */
module Fanout {
  import opened Protocol
  import opened Session

  /** One frame sent to one connection. */
  datatype Delivery = Delivery(to: Socket, frame: OutFrame)

  predicate Distinct<T(==)>(xs: seq<T>) {
    forall i, j :: 0 <= i < j < |xs| ==> xs[i] != xs[j]
  }

  function Elems<T>(xs: seq<T>): set<T> {
    set x | x in xs
  }

  /** A list without repetition has as many elements as its set. */
  lemma {:induction false} DistinctCard<T>(xs: seq<T>)
    requires Distinct(xs)
    ensures |Elems(xs)| == |xs|
  {
    if xs != [] {
      DistinctTail(xs);
      DistinctCard(xs[1..]);
      assert Elems(xs) == Elems(xs[1..]) + {xs[0]} by {
        assert xs == [xs[0]] + xs[1..];
      }
    }
  }

  /** Dropping the head of a list without repetition keeps it without
      repetition, and the head does not occur in the rest. */
  lemma DistinctTail<T>(xs: seq<T>)
    requires Distinct(xs) && xs != []
    ensures Distinct(xs[1..]) && xs[0] !in xs[1..]
  {
  }

  /** `[...members].filter(s => s.readyState === 1)`: the open members, in list order. */
  function OpenOnly(xs: seq<Socket>, open: set<Socket>): (ys: seq<Socket>)
    ensures Elems(ys) == Elems(xs) * open
    ensures |ys| <= |xs|
  {
    if xs == [] then []
    else
      var tail := OpenOnly(xs[1..], open);
      assert Elems(xs) == {xs[0]} + Elems(xs[1..]) by {
        assert xs == [xs[0]] + xs[1..];
      }
      assert Elems([xs[0]] + tail) == {xs[0]} + Elems(tail);
      if xs[0] in open then [xs[0]] + tail else tail
  }

  /** Filtering a list without repetition leaves one without repetition. */
  lemma {:induction false} OpenOnlyDistinct(xs: seq<Socket>, open: set<Socket>)
    requires Distinct(xs)
    ensures Distinct(OpenOnly(xs, open))
  {
    if xs != [] {
      DistinctTail(xs);
      OpenOnlyDistinct(xs[1..], open);
      var tail := OpenOnly(xs[1..], open);
      assert xs[0] !in Elems(tail);
    }
  }

  /** The number of open members counted on a snapshot of a member set is the
      number of open connections in that set. */
  lemma OpenOnlyCount(xs: seq<Socket>, open: set<Socket>)
    requires Distinct(xs)
    ensures |OpenOnly(xs, open)| == |Elems(xs) * open|
  {
    OpenOnlyDistinct(xs, open);
    DistinctCard(OpenOnly(xs, open));
  }

  /** `sent` delivers `frame` to every connection in `targets` exactly once and
      to nobody else. */
  ghost predicate IsFanOut(sent: seq<Delivery>, targets: set<Socket>, frame: OutFrame) {
    && Distinct(sent)
    && (forall d :: d in sent ==> d.frame == frame && d.to in targets)
    && (forall c :: c in targets ==> Delivery(c, frame) in sent)
  }

  /** A fan-out sends exactly one frame per target. */
  lemma FanOutSize(sent: seq<Delivery>, targets: set<Socket>, frame: OutFrame)
    requires IsFanOut(sent, targets, frame)
    ensures |sent| == |targets|
  {
    var to := seq(|sent|, i requires 0 <= i < |sent| => sent[i].to);
    assert Distinct(to) by {
      forall i, j | 0 <= i < j < |to| ensures to[i] != to[j] {
        assert sent[i] in sent && sent[j] in sent;
        assert sent[i] == Delivery(to[i], frame) && sent[j] == Delivery(to[j], frame);
      }
    }
    assert Elems(to) == targets by {
      forall c | c in targets ensures c in Elems(to) {
        var i :| 0 <= i < |sent| && sent[i] == Delivery(c, frame);
        assert to[i] == c;
      }
      forall c | c in Elems(to) ensures c in targets {
        var i :| 0 <= i < |to| && to[i] == c;
        assert sent[i] in sent;
      }
    }
    DistinctCard(to);
  }

  /** `[...members]`: lists a member set, each member once, in some order. */
  method Snapshot(members: set<Socket>) returns (xs: seq<Socket>)
    ensures Distinct(xs)
    ensures Elems(xs) == members
    ensures |xs| == |members|
  {
    xs := [];
    var rest := members;
    while rest != {}
      invariant rest <= members
      invariant Distinct(xs)
      invariant forall c :: c in xs <==> c in members && c !in rest
      invariant |xs| + |rest| == |members|
      decreases rest
    {
      var c :| c in rest;
      xs := xs + [c];
      rest := rest - {c};
    }
  }

  /** `[...members].filter((s) => s.readyState === 1).length`: the number of
      open connections in a member set. */
  method CountOpen(members: set<Socket>, open: set<Socket>) returns (n: nat)
    ensures n == |members * open|
  {
    var listed := Snapshot(members);
    n := |OpenOnly(listed, open)|;
    OpenOnlyCount(listed, open);
  }

  /** The `for (const client of set) if (...) client.send(frame)` loop: sends
      `frame` to each listed member that is open and not excluded. */
  method Broadcast(members: seq<Socket>, open: set<Socket>, except: set<Socket>, frame: OutFrame)
    returns (sent: seq<Delivery>)
    requires Distinct(members)
    ensures IsFanOut(sent, Elems(members) * open - except, frame)
  {
    sent := [];
    for i := 0 to |members|
      invariant Distinct(sent)
      invariant forall d :: d in sent ==> d.frame == frame && d.to in members[..i] && d.to in open && d.to !in except
      invariant forall c :: c in members[..i] && c in open && c !in except ==> Delivery(c, frame) in sent
    {
      var client := members[i];
      if client in open && client !in except {
        assert client !in members[..i];
        sent := sent + [Delivery(client, frame)];
      }
      assert members[..i + 1] == members[..i] + [client];
    }
    assert members[..|members|] == members;
  }
}
