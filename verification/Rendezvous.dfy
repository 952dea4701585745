/**
 Which Message link a conversation is routed to.  Every healthy link gets a score for the
 conversation and the highest wins; on a tie the link met first wins, and the links come in
 the order of a hash table.
 */
module Rendezvous {
  import opened Options

  /** `score` stands for the hash of the conversation and a link's id. */
  function Best(links: seq<string>, score: string -> int): Option<string> {
    if links == [] then None
    else
      var last := links[|links| - 1];
      match Best(links[..|links| - 1], score)
      case None => Some(last)
      case Some(b) => if score(last) > score(b) then Some(last) else Some(b)
  }

  ghost predicate Top(links: seq<string>, score: string -> int, l: string) {
    l in links && forall x :: x in links ==> score(x) <= score(l)
  }

  /** Best picks a link with the highest score. */
  lemma {:induction false} BestIsTop(links: seq<string>, score: string -> int)
    requires links != []
    ensures Best(links, score).Some? && Top(links, score, Best(links, score).value)
  {
    var front, last := links[..|links| - 1], links[|links| - 1];
    assert links == front + [last];
    if front != [] {
      BestIsTop(front, score);
    }
  }

  /** A link that already has the highest score keeps the choice from everything behind it. */
  lemma {:induction false} FirstTopWins(links: seq<string>, score: string -> int)
    requires links != [] && Top(links, score, links[0])
    ensures Best(links, score) == Some(links[0])
  {
    var front, last := links[..|links| - 1], links[|links| - 1];
    if front != [] {
      assert front[0] == links[0] && Top(front, score, front[0]);
      FirstTopWins(front, score);
      assert last in links;
    }
  }

  ghost predicate OneTop(links: seq<string>, score: string -> int) {
    forall a, b :: Top(links, score, a) && Top(links, score, b) ==> a == b
  }

  /** With one top score, the choice depends on the set of links and not on their order. */
  lemma OrderIrrelevant(xs: seq<string>, ys: seq<string>, score: string -> int)
    requires OneTop(xs, score) && forall x :: x in xs <==> x in ys
    ensures Best(xs, score) == Best(ys, score)
  {
    assert xs != [] ==> xs[0] in xs;
    assert ys != [] ==> ys[0] in ys;
    if xs != [] && ys != [] {
      BestIsTop(xs, score);
      BestIsTop(ys, score);
      assert Top(xs, score, Best(ys, score).value);
    }
  }

  function Rotated(xs: seq<string>, i: nat): seq<string>
    requires i <= |xs|
  {
    xs[i..] + xs[..i]
  }

  lemma RotatedSame(xs: seq<string>, i: nat, x: string)
    requires i <= |xs|
    ensures x in Rotated(xs, i) <==> x in xs
  {
    assert xs == xs[..i] + xs[i..];
  }

  /** A single top score is exactly what makes the choice independent of the order. */
  lemma OrderIrrelevantIff(xs: seq<string>, score: string -> int)
    ensures (forall i :: 0 <= i <= |xs| ==> Best(Rotated(xs, i), score) == Best(xs, score)) <==> OneTop(xs, score)
  {
    forall i, x | 0 <= i <= |xs|
      ensures x in Rotated(xs, i) <==> x in xs
    {
      RotatedSame(xs, i, x);
    }
    if OneTop(xs, score) {
      forall i | 0 <= i <= |xs|
        ensures Best(Rotated(xs, i), score) == Best(xs, score)
      {
        OrderIrrelevant(xs, Rotated(xs, i), score);
      }
    } else {
      var a, b :| Top(xs, score, a) && Top(xs, score, b) && a != b;
      var i :| 0 <= i < |xs| && xs[i] == a;
      var j :| 0 <= j < |xs| && xs[j] == b;
      FirstInRotation(xs, score, i);
      FirstInRotation(xs, score, j);
    }
  }

  lemma FirstInRotation(xs: seq<string>, score: string -> int, i: nat)
    requires i < |xs| && Top(xs, score, xs[i])
    ensures Best(Rotated(xs, i), score) == Some(xs[i])
  {
    var r := Rotated(xs, i);
    forall x
      ensures x in r <==> x in xs
    {
      RotatedSame(xs, i, x);
    }
    assert r[0] == xs[i] && Top(r, score, r[0]);
    FirstTopWins(r, score);
  }

  function Without(links: seq<string>, gone: string): seq<string> {
    if links == [] then []
    else Without(links[..|links| - 1], gone) + (if links[|links| - 1] == gone then [] else [links[|links| - 1]])
  }

  lemma {:induction false} WithoutMembers(links: seq<string>, gone: string, x: string)
    ensures x in Without(links, gone) <==> x in links && x != gone
  {
    if links != [] {
      WithoutMembers(links[..|links| - 1], gone, x);
      assert links == links[..|links| - 1] + [links[|links| - 1]];
    }
  }

  /** Losing a link that was not chosen moves no conversation. */
  lemma LosingOtherLinkKeepsRoute(links: seq<string>, score: string -> int, gone: string)
    requires OneTop(links, score) && links != [] && Best(links, score) != Some(gone)
    ensures Best(Without(links, gone), score) == Best(links, score)
  {
    BestIsTop(links, score);
    var b := Best(links, score).value;
    forall x
      ensures x in Without(links, gone) <==> x in links && x != gone
    {
      WithoutMembers(links, gone, x);
    }
    assert b in Without(links, gone);
    BestIsTop(Without(links, gone), score);
    assert Top(links, score, Best(Without(links, gone), score).value);
  }

  /** A new link takes conversations only to itself, wherever the table puts it among the others. */
  lemma NewLinkAttractsOnlyToItself(xs: seq<string>, ys: seq<string>, score: string -> int, added: string)
    requires xs != [] && OneTop(ys, score) && forall x :: x in ys <==> x in xs || x == added
    ensures Best(ys, score) == Best(xs, score) || Best(ys, score) == Some(added)
  {
    assert xs[0] in ys;
    BestIsTop(xs, score);
    BestIsTop(ys, score);
    var top := Best(ys, score).value;
    if top != added {
      var before := Best(xs, score).value;
      assert top in xs && score(top) <= score(before);
      assert Top(ys, score, before);
    }
  }

  /** Where an unfinished command is retried is where later commands go once the failed link is gone. */
  lemma RetryFollowsTheRoute(links: seq<string>, remaining: seq<string>, score: string -> int, failed: string)
    requires OneTop(remaining, score) && forall x :: x in remaining <==> x in links && x != failed
    ensures Best(Without(links, failed), score) == Best(remaining, score)
  {
    forall x
      ensures x in Without(links, failed) <==> x in remaining
    {
      WithoutMembers(links, failed, x);
    }
    OrderIrrelevant(remaining, Without(links, failed), score);
  }

  datatype Link = Link(id: string, healthy: bool, inflight: nat)

  predicate Usable(l: Link, excluded: string) { l.healthy && l.id != excluded }

  function Ids(links: seq<Link>): seq<string> { seq(|links|, i requires 0 <= i < |links| => links[i].id) }

  /** The links a command may take: healthy and not the one it must avoid. */
  method HealthyLinks(links: seq<Link>, excluded: string) returns (usable: seq<Link>)
    ensures forall l :: l in usable <==> l in links && Usable(l, excluded)
  {
    usable := [];
    for i := 0 to |links|
      invariant forall l :: l in usable <==> l in links[..i] && Usable(l, excluded)
    {
      if links[i].healthy && links[i].id != excluded {
        usable := usable + [links[i]];
      }
    }
    assert links[..|links|] == links;
  }

  method HighestScore(links: seq<Link>, score: string -> int) returns (r: Link)
    requires links != []
    ensures r in links && Best(Ids(links), score) == Some(r.id)
  {
    r := links[0];
    for i := 1 to |links|
      invariant r in links && Best(Ids(links[..i]), score) == Some(r.id)
    {
      assert Ids(links[..i + 1])[..i] == Ids(links[..i]);
      if score(links[i].id) > score(r.id) {
        r := links[i];
      }
    }
    assert links[..|links|] == links;
  }

  method FewestInflight(links: seq<Link>) returns (r: Link)
    requires links != []
    ensures r in links && forall l :: l in links ==> r.inflight <= l.inflight
  {
    r := links[0];
    for i := 1 to |links|
      invariant r in links && forall k :: 0 <= k < i ==> r.inflight <= links[k].inflight
    {
      if links[i].inflight < r.inflight {
        r := links[i];
      }
    }
  }

  /**
   With a conversation the highest score among the usable links decides, in whatever order the
   table yields them; without one, a link with the fewest commands in flight.
   */
  method SelectLink(links: seq<Link>, conversationId: int, excluded: string, score: string -> int) returns (r: Option<Link>)
    ensures r.None? <==> forall l :: l in links ==> !Usable(l, excluded)
    ensures r.Some? ==> r.value in links && Usable(r.value, excluded)
    ensures r.Some? && conversationId > 0 ==>
              forall l :: l in links && Usable(l, excluded) ==> score(l.id) <= score(r.value.id)
    ensures r.Some? && conversationId <= 0 ==>
              forall l :: l in links && Usable(l, excluded) ==> r.value.inflight <= l.inflight
  {
    var usable := HealthyLinks(links, excluded);
    if usable == [] {
      return None;
    }
    assert usable[0] in links && Usable(usable[0], excluded);
    if conversationId > 0 {
      var best := HighestScore(usable, score);
      BestIsTop(Ids(usable), score);
      forall l | l in usable
        ensures score(l.id) <= score(best.id)
      {
        var k :| 0 <= k < |usable| && usable[k] == l;
        assert Ids(usable)[k] == l.id;
      }
      return Some(best);
    }
    var least := FewestInflight(usable);
    return Some(least);
  }
}
