/** Frames in flight between the two sides and what a pool of links does with them. */
module Traffic {
  import opened Wire

  datatype Packet =
    | Syn(cid: u32, valid: bool)
    | Data(cid: u32, n: u64, payload: Bytes)
    | Fin(cid: u32, n: u64)
    | Rst(cid: u32)

  /** One direction of a link: what its queue and its socket hold, oldest first, and whether its
      owner may still enqueue. */
  datatype Link = Link(frames: seq<Packet>, alive: bool)

  /** `TunnelPool::send`, with the link it settles on; a refused frame is dropped. */
  function Post(links: seq<Link>, f: Packet, at: nat): seq<Link> {
    if at < |links| && links[at].alive then links[at := links[at].(frames := links[at].frames + [f])] else links
  }

  function PostAll(links: seq<Link>, fs: seq<Packet>, route: nat -> nat): seq<Link> {
    if fs == [] then links
    else
      var i := |fs| - 1;
      Post(PostAll(links, fs[..i], route), fs[i], route(i))
  }

  function Taken(links: seq<Link>, i: nat): seq<Link>
    requires i < |links| && links[i].frames != []
  {
    links[i := links[i].(frames := links[i].frames[1..])]
  }

  /** A dying link: its first `k` frames are already on the wire, the rest never left. */
  function Cut(links: seq<Link>, i: nat, k: nat): seq<Link>
    requires i < |links| && k <= |links[i].frames|
  {
    links[i := Link(links[i].frames[..k], false)]
  }

  // ----- weighing traffic

  function Weigh(fs: seq<Packet>, cost: Packet -> nat): nat {
    if fs == [] then 0 else Weigh(fs[..|fs| - 1], cost) + cost(fs[|fs| - 1])
  }

  function Load(links: seq<Link>, cost: Packet -> nat): nat {
    if links == [] then 0 else Load(links[..|links| - 1], cost) + Weigh(links[|links| - 1].frames, cost)
  }

  function Alive(links: seq<Link>): nat {
    if links == [] then 0 else Alive(links[..|links| - 1]) + if links[|links| - 1].alive then 1 else 0
  }

  lemma {:induction false} WeighConcat(a: seq<Packet>, b: seq<Packet>, cost: Packet -> nat)
    ensures Weigh(a + b, cost) == Weigh(a, cost) + Weigh(b, cost)
  {
    if b == [] {
      assert a + b == a;
    } else {
      var i := |b| - 1;
      assert (a + b)[..|a + b| - 1] == a + b[..i];
      WeighConcat(a, b[..i], cost);
    }
  }

  lemma WeighOne(f: Packet, cost: Packet -> nat)
    ensures Weigh([f], cost) == cost(f)
  {
    assert [f][..0] == [];
  }

  lemma WeighHead(fs: seq<Packet>, cost: Packet -> nat)
    requires fs != []
    ensures Weigh(fs, cost) == cost(fs[0]) + Weigh(fs[1..], cost)
  {
    assert fs == [fs[0]] + fs[1..];
    WeighConcat([fs[0]], fs[1..], cost);
    WeighOne(fs[0], cost);
  }

  lemma {:induction false} WeighAtLeast(fs: seq<Packet>, cost: Packet -> nat)
    requires forall f :: cost(f) >= 1
    ensures Weigh(fs, cost) >= |fs|
  {
    if fs != [] {
      WeighAtLeast(fs[..|fs| - 1], cost);
    }
  }

  lemma {:induction false} LoadUpdate(links: seq<Link>, i: nat, l: Link, cost: Packet -> nat)
    requires i < |links|
    ensures Load(links[i := l], cost) + Weigh(links[i].frames, cost) == Load(links, cost) + Weigh(l.frames, cost)
  {
    var n := |links| - 1;
    if i == n {
      assert links[i := l][..n] == links[..n];
    } else {
      assert links[i := l][..n] == links[..n][i := l];
      LoadUpdate(links[..n], i, l, cost);
    }
  }

  lemma {:induction false} AliveUpdate(links: seq<Link>, i: nat, l: Link)
    requires i < |links|
    ensures Alive(links[i := l]) + (if links[i].alive then 1 else 0) == Alive(links) + if l.alive then 1 else 0
  {
    var n := |links| - 1;
    if i == n {
      assert links[i := l][..n] == links[..n];
    } else {
      assert links[i := l][..n] == links[..n][i := l];
      AliveUpdate(links[..n], i, l);
    }
  }

  lemma PostLoad(links: seq<Link>, f: Packet, at: nat, cost: Packet -> nat)
    ensures Load(Post(links, f, at), cost) <= Load(links, cost) + cost(f)
    ensures Alive(Post(links, f, at)) == Alive(links)
  {
    if at < |links| && links[at].alive {
      var l := links[at].(frames := links[at].frames + [f]);
      LoadUpdate(links, at, l, cost);
      AliveUpdate(links, at, l);
      WeighConcat(links[at].frames, [f], cost);
      WeighOne(f, cost);
    }
  }

  lemma {:induction false} PostAllLoad(links: seq<Link>, fs: seq<Packet>, route: nat -> nat, cost: Packet -> nat)
    ensures Load(PostAll(links, fs, route), cost) <= Load(links, cost) + Weigh(fs, cost)
    ensures Alive(PostAll(links, fs, route)) == Alive(links)
  {
    if fs != [] {
      var i := |fs| - 1;
      PostAllLoad(links, fs[..i], route, cost);
      PostLoad(PostAll(links, fs[..i], route), fs[i], route(i), cost);
    }
  }

  lemma TakenLoad(links: seq<Link>, i: nat, cost: Packet -> nat)
    requires i < |links| && links[i].frames != []
    ensures Load(Taken(links, i), cost) + cost(links[i].frames[0]) == Load(links, cost)
    ensures Alive(Taken(links, i)) == Alive(links)
  {
    var l := links[i].(frames := links[i].frames[1..]);
    LoadUpdate(links, i, l, cost);
    AliveUpdate(links, i, l);
    WeighHead(links[i].frames, cost);
  }

  lemma CutLoad(links: seq<Link>, i: nat, k: nat, j: nat, cost: Packet -> nat)
    requires i < |links| && links[i].alive && k <= j <= |links[i].frames|
    ensures Load(Cut(links, i, k), cost) + Weigh(links[i].frames[j..], cost) <= Load(links, cost)
    ensures Alive(Cut(links, i, k)) + 1 == Alive(links)
  {
    var fs := links[i].frames;
    LoadUpdate(links, i, Link(fs[..k], false), cost);
    AliveUpdate(links, i, Link(fs[..k], false));
    assert fs == fs[..k] + fs[k..j] + fs[j..];
    WeighConcat(fs[..k] + fs[k..j], fs[j..], cost);
    WeighConcat(fs[..k], fs[k..j], cost);
  }

  // ----- frames are neither lost nor made up on the way

  /** Everything in flight. */
  function InTransit(links: seq<Link>): multiset<Packet> {
    if links == [] then multiset{}
    else InTransit(links[..|links| - 1]) + multiset(links[|links| - 1].frames)
  }

  lemma {:induction false} InTransitUpdate(links: seq<Link>, i: nat, l: Link)
    requires i < |links|
    ensures InTransit(links[i := l]) + multiset(links[i].frames) == InTransit(links) + multiset(l.frames)
  {
    var n := |links| - 1;
    var changed, front := links[i := l], links[..n];
    if i == n {
      assert changed[..n] == front;
    } else {
      assert changed[..n] == front[i := l];
      InTransitUpdate(front, i, l);
      Regroup(InTransit(front[i := l]), multiset(links[i].frames), InTransit(front), multiset(l.frames),
              multiset(links[n].frames));
    }
  }

  lemma Regroup(a: multiset<Packet>, b: multiset<Packet>, c: multiset<Packet>, d: multiset<Packet>, e: multiset<Packet>)
    requires a + b == c + d
    ensures a + e + b == c + e + d
  {
    assert a + e + b == a + b + e;
  }

  predicate Live(links: seq<Link>, at: nat) {
    at < |links| && links[at].alive
  }

  /** A frame given to a live link is on its way, behind what that link already carries; one that no
      link takes is dropped. */
  ghost predicate Posted(links: seq<Link>, links': seq<Link>, f: Packet, at: nat) {
    if Live(links, at) then
      && InTransit(links') == InTransit(links) + multiset{f}
      && Live(links', at) && links'[at].frames == links[at].frames + [f]
    else links' == links
  }

  lemma Appended(fs: seq<Packet>, gs: seq<Packet>)
    ensures multiset(fs + gs) == multiset(fs) + multiset(gs)
  {
  }

  /** What a link's change adds to or takes from the traffic. */
  lemma UpdateAdds(links: seq<Link>, i: nat, l: Link, more: multiset<Packet>)
    requires i < |links|
    ensures multiset(l.frames) == multiset(links[i].frames) + more ==>
              InTransit(links[i := l]) == InTransit(links) + more
    ensures multiset(links[i].frames) == multiset(l.frames) + more ==>
              InTransit(links[i := l]) + more == InTransit(links)
  {
    hide InTransit;
    InTransitUpdate(links, i, l);
    var a, b, was, fs := InTransit(links[i := l]), InTransit(links), multiset(links[i].frames), multiset(l.frames);
    if fs == was + more {
      Cancel(a, b + more, was);
    } else if was == fs + more {
      Cancel(a + more, b, fs);
    }
  }

  lemma Cancel(a: multiset<Packet>, b: multiset<Packet>, c: multiset<Packet>)
    requires a + c == b + c
    ensures a == b
  {
    assert a == (a + c) - c;
    assert b == (b + c) - c;
  }

  lemma PostLaw(links: seq<Link>, f: Packet, at: nat)
    ensures Posted(links, Post(links, f, at), f, at)
    ensures |Post(links, f, at)| == |links|
    ensures forall k :: 0 <= k < |links| ==> Post(links, f, at)[k].alive == links[k].alive
  {
    hide InTransit;
    if Live(links, at) {
      Appended(links[at].frames, [f]);
      UpdateAdds(links, at, links[at].(frames := links[at].frames + [f]), multiset{f});
    }
  }

  /** Frames that all find a live link are all on their way. */
  lemma {:induction false} PostAllLaw(links: seq<Link>, fs: seq<Packet>, route: nat -> nat)
    requires forall k :: 0 <= k < |fs| ==> Live(links, route(k))
    ensures InTransit(PostAll(links, fs, route)) == InTransit(links) + multiset(fs)
    ensures |PostAll(links, fs, route)| == |links|
    ensures forall k :: 0 <= k < |links| ==> PostAll(links, fs, route)[k].alive == links[k].alive
  {
    hide InTransit, Post;
    if fs != [] {
      var i := |fs| - 1;
      PostAllLaw(links, fs[..i], route);
      PostLaw(PostAll(links, fs[..i], route), fs[i], route(i));
      assert fs == fs[..i] + [fs[i]];
      Appended(fs[..i], [fs[i]]);
    }
  }

  lemma TakenLaw(links: seq<Link>, i: nat)
    requires i < |links| && links[i].frames != []
    ensures InTransit(Taken(links, i)) + multiset{links[i].frames[0]} == InTransit(links)
    ensures Taken(links, i)[i].frames == links[i].frames[1..] && Taken(links, i)[i].alive == links[i].alive
  {
    hide InTransit;
    var l := links[i].(frames := links[i].frames[1..]);
    assert links[i].frames == [links[i].frames[0]] + l.frames;
    Appended([links[i].frames[0]], l.frames);
    UpdateAdds(links, i, l, multiset{links[i].frames[0]});
  }

  /** A dying link keeps what is on the wire and gives up the rest, in order. */
  lemma CutLaw(links: seq<Link>, i: nat, k: nat)
    requires i < |links| && k <= |links[i].frames|
    ensures InTransit(Cut(links, i, k)) + multiset(links[i].frames[k..]) == InTransit(links)
    ensures Cut(links, i, k)[i].frames == links[i].frames[..k] && !Cut(links, i, k)[i].alive
  {
    hide InTransit;
    assert links[i].frames == links[i].frames[..k] + links[i].frames[k..];
    Appended(links[i].frames[..k], links[i].frames[k..]);
    UpdateAdds(links, i, Link(links[i].frames[..k], false), multiset(links[i].frames[k..]));
  }
}
