/** Day 23, "LAN Party": a list of direct links between computers.  Part 1
    counts the sets of three computers that are all linked to one another
    and include a computer whose name starts with `t`; part 2 finds a
    largest set of computers all linked to one another (a clique) with
    Bron–Kerbosch, and gives its names sorted and joined by commas. */
module LanParty {
  import opened Wrappers
  import opened Names
  import Text
  import Seqs
  import Arith

  type Address = string

  /** `connections`: each computer with the list of computers it is linked
      to, in the order the links were read. */
  type Connections = map<Address, seq<Address>>

  /** `b` is in `a`'s list. */
  predicate Adjacent(conns: Connections, a: Address, b: Address) {
    a in conns && b in conns[a]
  }

  /** Every listed computer has a list of its own, so the source's
      `connections.get(..).unwrap()` on a listed computer never panics. */
  predicate Closed(conns: Connections) {
    forall a, b :: a in conns && b in conns[a] ==> b in conns
  }

  /** Links go both ways. */
  predicate Symmetric(conns: Connections) {
    forall a, b :: a in conns && b in conns[a] ==> Adjacent(conns, b, a)
  }

  // ---------------------------------------------------------------------
  // Parsing

  /** The list of `a` so far; a computer never seen has none. */
  function ListOf(conns: Connections, a: Address): seq<Address> {
    if a in conns then conns[a] else []
  }

  /** One link `left-right`: `right` pushed onto `left`'s list, then `left`
      onto `right`'s. */
  function AddLink(conns: Connections, link: (Address, Address)): (r: Connections)
    ensures r.Keys == conns.Keys + {link.0, link.1}
    ensures forall a, b :: Adjacent(r, a, b) <==>
      Adjacent(conns, a, b) || (a, b) == link || (b, a) == link
  {
    var (left, right) := link;
    var first := conns[left := ListOf(conns, left) + [right]];
    first[right := ListOf(first, right) + [left]]
  }

  /** `Puzzle::from`'s loop: every link in turn. */
  function BuildConnections(links: seq<(Address, Address)>): Connections {
    if |links| == 0 then map[]
    else AddLink(BuildConnections(links[..|links| - 1]), links[|links| - 1])
  }

  /** A link keeps the lists two-way and closed. */
  lemma AddLinkKeeps(conns: Connections, link: (Address, Address))
    requires Symmetric(conns) && Closed(conns)
    ensures Symmetric(AddLink(conns, link)) && Closed(AddLink(conns, link))
  {
    var r := AddLink(conns, link);
    forall a, b | a in r && b in r[a] ensures Adjacent(r, b, a) && b in r {
      assert Adjacent(r, a, b);
    }
  }

  /** Some line links `a` and `b`, in either order. */
  predicate Linked(links: seq<(Address, Address)>, a: Address, b: Address) {
    exists k :: 0 <= k < |links| && (links[k] == (a, b) || links[k] == (b, a))
  }

  lemma LinkedLast(links: seq<(Address, Address)>, a: Address, b: Address)
    requires |links| > 0
    ensures Linked(links, a, b) <==>
      Linked(links[..|links| - 1], a, b) || links[|links| - 1] == (a, b) || links[|links| - 1] == (b, a)
  {
    var n := |links| - 1;
    var prev := links[..n];
    if Linked(links, a, b) {
      var k :| 0 <= k < |links| && (links[k] == (a, b) || links[k] == (b, a));
      if k < n {
        assert prev[k] == links[k];
      }
    }
    if Linked(prev, a, b) {
      var k :| 0 <= k < n && (prev[k] == (a, b) || prev[k] == (b, a));
      assert links[k] == prev[k];
    }
  }

  /** Two computers are listed as linked exactly when some line links them,
      in either order. */
  lemma {:induction false} BuildLinks(links: seq<(Address, Address)>, a: Address, b: Address)
    ensures Adjacent(BuildConnections(links), a, b) <==> Linked(links, a, b)
  {
    if |links| > 0 {
      BuildLinks(links[..|links| - 1], a, b);
      LinkedLast(links, a, b);
    }
  }

  /** The lists read from any links link both ways and name only
      computers that have lists. */
  lemma {:induction false} BuildSymmetricClosed(links: seq<(Address, Address)>)
    ensures Symmetric(BuildConnections(links)) && Closed(BuildConnections(links))
  {
    if |links| > 0 {
      BuildSymmetricClosed(links[..|links| - 1]);
      AddLinkKeeps(BuildConnections(links[..|links| - 1]), links[|links| - 1]);
    }
  }

  /** A line `left-right`; None where `split_once("-").unwrap()` panics. */
  function ParseLink(line: string): (r: Option<(Address, Address)>)
    ensures r.Some? <==> Text.SplitOnce(line, "-").Some?
    ensures r.Some? ==> line == r.value.0 + "-" + r.value.1
  {
    match Text.SplitOnce(line, "-")
    case None => None
    case Some((left, right)) => Some((left, right))
  }

  /** `Puzzle::from`: the links of every line. */
  function ParseConnections(input: string): (r: Option<Connections>)
    ensures r.Some? <==> forall k :: 0 <= k < |Text.Lines(input)| ==> ParseLink(Text.Lines(input)[k]).Some?
    ensures r.Some? ==> Symmetric(r.value) && Closed(r.value)
  {
    match Text.ParseEach(Text.Lines(input), ParseLink)
    case None => None
    case Some(links) =>
      BuildSymmetricClosed(links);
      Some(BuildConnections(links))
  }

  // ---------------------------------------------------------------------
  // Part 1: networks of three

  /** A network on the worklist: at least one and at most `size` computers,
      each linked to from the one before, none but the first being the
      first again. */
  predicate Growing(conns: Connections, n: seq<Address>, size: nat) {
    1 <= |n| <= size &&
    (forall i :: 0 <= i < |n| ==> n[i] in conns) &&
    (forall i :: 0 < i < |n| ==> Adjacent(conns, n[i - 1], n[i]) && n[i] != n[0])
  }

  /** A network of `size` computers, each linked to from the one before,
      whose last computer links back to the first. */
  ghost predicate Target(conns: Connections, n: seq<Address>, size: nat) {
    |n| == size && Growing(conns, n, size) && Adjacent(conns, n[size - 1], n[0])
  }

  /** A recorded network: the sorted first three computers of a network of
      `size`. */
  ghost predicate IsNetwork(conns: Connections, t: seq<Address>, size: nat)
    requires size >= 3
  {
    exists n :: Target(conns, n, size) && t == SortNames(n[..3])
  }

  /** The most computers any one list holds. */
  ghost function MaxDegree(conns: Connections): (r: nat)
    ensures forall a :: a in conns ==> |conns[a]| <= r
    decreases |conns.Keys|
  {
    if |conns.Keys| == 0 then 0
    else
      var k :| k in conns;
      var rest := MaxDegree(conns - {k});
      assert (conns - {k}).Keys == conns.Keys - {k};
      assert forall a :: a in conns && a != k ==> a in conns - {k};
      if |conns[k]| > rest then |conns[k]| else rest
  }

  /** The most networks a network `h` computers short of `size` can still
      put on the worklist, itself included, when no list holds more than
      `d` computers. */
  function Tree(h: nat, d: nat): (r: nat)
    ensures r >= 1
  {
    if h == 0 then 1 else 1 + d * Tree(h - 1, d)
  }

  function Height(n: seq<Address>, size: nat): nat {
    if |n| <= size then size - |n| else 0
  }

  /** The work left on the worklist: it falls with every network popped. */
  function Work(queue: seq<seq<Address>>, size: nat, d: nat): nat {
    if |queue| == 0 then 0
    else Work(queue[..|queue| - 1], size, d) + Tree(Height(queue[|queue| - 1], size), d)
  }

  lemma WorkPush(queue: seq<seq<Address>>, n: seq<Address>, size: nat, d: nat)
    ensures Work(queue + [n], size, d) == Work(queue, size, d) + Tree(Height(n, size), d)
  {
    assert (queue + [n])[..|queue|] == queue;
  }

  /** A network one computer longer, pushed while `pushes` such networks
      already wait above `rest`, adds one more share of the work. */
  lemma WorkPushed(queue: seq<seq<Address>>, rest: seq<seq<Address>>, grown: seq<Address>,
                   pushes: nat, h: nat, size: nat, d: nat)
    requires h > 0 && Height(grown, size) == h - 1
    requires Work(queue, size, d) == Work(rest, size, d) + pushes * Tree(h - 1, d)
    ensures Work(queue + [grown], size, d) == Work(rest, size, d) + (pushes + 1) * Tree(h - 1, d)
  {
    WorkPush(queue, grown, size, d);
    assert (pushes + 1) * Tree(h - 1, d) == pushes * Tree(h - 1, d) + Tree(h - 1, d);
  }

  /** A network shorter than `size` grown by a link of its last computer
      to another than its first is still growing, one step closer. */
  lemma GrowingExtend(conns: Connections, network: seq<Address>, neighbor: Address, size: nat)
    requires Closed(conns) && Growing(conns, network, size) && |network| < size
    requires neighbor in conns[network[|network| - 1]] && neighbor != network[0]
    ensures Growing(conns, network + [neighbor], size)
    ensures Height(network + [neighbor], size) == Height(network, size) - 1
  {
    var grown := network + [neighbor];
    forall j | 0 < j < |grown| ensures Adjacent(conns, grown[j - 1], grown[j]) && grown[j] != grown[0] {
      if j < |network| {
        assert grown[j - 1] == network[j - 1] && grown[j] == network[j];
      }
    }
  }

  /** A network of `size` computers whose last links back to its first
      yields a recorded network. */
  lemma NetworkRecorded(conns: Connections, network: seq<Address>, size: nat)
    requires size >= 3 && Growing(conns, network, size) && |network| == size
    requires network[0] in conns[network[size - 1]]
    ensures IsNetwork(conns, SortNames(network[..3]), size)
  {
    assert Adjacent(conns, network[size - 1], network[0]);
  }

  /** A popped network that could still grow pushes at most `d` networks
      one longer, which together weigh less than it did. */
  lemma WorkFalls(pushes: nat, d: nat, h: nat)
    requires h > 0 && pushes <= d
    ensures pushes * Tree(h - 1, d) < Tree(h, d)
  {
    Arith.MulMonotone(Tree(h - 1, d), pushes, d);
  }

  /** Some prefix of the network `n` waits on the worklist. */
  ghost predicate Pending(queue: seq<seq<Address>>, n: seq<Address>) {
    exists k :: 1 <= k <= |n| && n[..k] in queue
  }

  /** The computer `n` needs after its prefix `network`: the next one while
      the prefix is shorter, else the first one, which closes it. */
  function Wanted(n: seq<Address>, network: seq<Address>): Address
    requires 0 < |network| <= |n|
  {
    if |network| < |n| then n[|network|] else n[0]
  }

  /** Every network of `size` is recorded or has a prefix waiting. */
  ghost predicate Covered(conns: Connections, networks: set<seq<Address>>, queue: seq<seq<Address>>, size: nat)
    requires size >= 3
  {
    forall n {:trigger Target(conns, n, size)} :: Target(conns, n, size) ==> SortNames(n[..3]) in networks || Pending(queue, n)
  }

  /** While the popped `network` looks at its last computer's links, a
      network of `size` may also be one that `network` starts and whose
      wanted computer is among the links `todo` still to look at. */
  ghost predicate CoveredDuring(conns: Connections, networks: set<seq<Address>>, queue: seq<seq<Address>>,
                                network: seq<Address>, todo: seq<Address>, size: nat)
    requires size >= 3
  {
    forall n {:trigger Target(conns, n, size)} :: Target(conns, n, size) ==>
      || SortNames(n[..3]) in networks
      || Pending(queue, n)
      || (0 < |network| <= |n| && n[..|network|] == network && Wanted(n, network) in todo)
  }

  /** At the start every network's first computer waits alone. */
  lemma CoverStart(conns: Connections, keys: seq<Address>, queue: seq<seq<Address>>, size: nat)
    requires size >= 3 && forall a :: a in keys <==> a in conns
    requires |queue| == |keys| && forall k :: 0 <= k < |keys| ==> queue[k] == [keys[k]]
    ensures Covered(conns, {}, queue, size)
  {
    forall n | Target(conns, n, size) ensures Pending(queue, n) {
      assert n[0] in conns;
      var j :| 0 <= j < |keys| && keys[j] == n[0];
      assert queue[j] == n[..1];
    }
  }

  /** Popping a network moves the networks it starts to its own links. */
  lemma CoverPop(conns: Connections, networks: set<seq<Address>>, rest: seq<seq<Address>>,
                 network: seq<Address>, size: nat)
    requires size >= 3 && Growing(conns, network, size)
    requires Covered(conns, networks, rest + [network], size)
    ensures CoveredDuring(conns, networks, rest, network, conns[network[|network| - 1]], size)
  {
    var last := network[|network| - 1];
    forall n | Target(conns, n, size) && SortNames(n[..3]) !in networks && !Pending(rest, n)
      ensures 0 < |network| <= |n| && n[..|network|] == network && Wanted(n, network) in conns[last]
    {
      var k :| 1 <= k <= |n| && n[..k] in rest + [network];
      assert n[..k] !in rest;
      assert n[..k] == network;
      assert n[k - 1] == last;
      if k < |n| {
        assert Adjacent(conns, n[k - 1], n[k]);
      }
    }
  }

  /** Looking at one more link keeps every network accounted for, provided
      the link closing `network` records it and the link growing it pushes
      the grown network. */
  lemma CoverStep(conns: Connections, networks: set<seq<Address>>, networks': set<seq<Address>>,
                  queue: seq<seq<Address>>, queue': seq<seq<Address>>,
                  network: seq<Address>, neighbors: seq<Address>, i: nat, size: nat)
    requires size >= 3 && Growing(conns, network, size) && i < |neighbors|
    requires CoveredDuring(conns, networks, queue, network, neighbors[i..], size)
    requires networks <= networks' && forall q :: q in queue ==> q in queue'
    requires neighbors[i] == network[0] && |network| == size ==> SortNames(network[..3]) in networks'
    requires neighbors[i] != network[0] && |network| < size ==> network + [neighbors[i]] in queue'
    ensures CoveredDuring(conns, networks', queue', network, neighbors[i + 1..], size)
  {
    forall n | Target(conns, n, size)
      ensures || SortNames(n[..3]) in networks'
              || Pending(queue', n)
              || (0 < |network| <= |n| && n[..|network|] == network && Wanted(n, network) in neighbors[i + 1..])
    {
      if Pending(queue, n) {
        PendingKept(queue, queue', n);
      } else if SortNames(n[..3]) !in networks {
        if Wanted(n, network) == neighbors[i] {
          WantedSeen(conns, networks', queue', network, neighbors[i], size, n);
        } else {
          LaterLink(neighbors, i, Wanted(n, network));
        }
      }
    }
  }

  lemma LaterLink(neighbors: seq<Address>, i: nat, a: Address)
    requires i < |neighbors| && a in neighbors[i..] && a != neighbors[i]
    ensures a in neighbors[i + 1..]
  {
    assert neighbors[i..] == [neighbors[i]] + neighbors[i + 1..];
  }

  /** A waiting prefix still waits on a worklist holding all of the old. */
  lemma PendingKept(queue: seq<seq<Address>>, queue': seq<seq<Address>>, n: seq<Address>)
    requires Pending(queue, n) && forall q :: q in queue ==> q in queue'
    ensures Pending(queue', n)
  {
    var k :| 1 <= k <= |n| && n[..k] in queue;
    assert n[..k] in queue';
  }

  /** The link a network of `size` wants from its prefix `network` either
      closes it, and it is recorded, or grows the prefix, which is pushed. */
  lemma WantedSeen(conns: Connections, networks': set<seq<Address>>, queue': seq<seq<Address>>,
                   network: seq<Address>, neighbor: Address, size: nat, n: seq<Address>)
    requires size >= 3 && Growing(conns, network, size) && Target(conns, n, size)
    requires |network| <= |n| && n[..|network|] == network && Wanted(n, network) == neighbor
    requires neighbor == network[0] && |network| == size ==> SortNames(network[..3]) in networks'
    requires neighbor != network[0] && |network| < size ==> network + [neighbor] in queue'
    ensures SortNames(n[..3]) in networks' || Pending(queue', n)
  {
    if |network| == |n| {
      assert n[..|network|] == n;
    } else {
      assert n[|network|] != n[0];
      assert network + [neighbor] == n[..|network| + 1];
    }
  }

  /** With every link looked at, the popped network starts no network
      still unaccounted for. */
  lemma CoverEnd(conns: Connections, networks: set<seq<Address>>, queue: seq<seq<Address>>,
                 network: seq<Address>, neighbors: seq<Address>, size: nat)
    requires size >= 3 && CoveredDuring(conns, networks, queue, network, neighbors[|neighbors|..], size)
    ensures Covered(conns, networks, queue, size)
  {
  }

  /** Every network of the queue is a growing path. */
  predicate AllGrowing(conns: Connections, queue: seq<seq<Address>>, size: nat) {
    forall k :: 0 <= k < |queue| ==> Growing(conns, queue[k], size)
  }

  /** Every network recorded is a network of `size` computers. */
  ghost predicate AllNetworks(conns: Connections, networks: set<seq<Address>>, size: nat)
    requires size >= 3
  {
    forall t :: t in networks ==> IsNetwork(conns, t, size)
  }

  lemma GrowingPush(conns: Connections, queue: seq<seq<Address>>, grown: seq<Address>, size: nat)
    requires AllGrowing(conns, queue, size) && Growing(conns, grown, size)
    ensures AllGrowing(conns, queue + [grown], size)
  {
    forall k | 0 <= k < |queue| + 1 ensures Growing(conns, (queue + [grown])[k], size) {
      if k < |queue| {
        assert (queue + [grown])[k] == queue[k];
      }
    }
  }

  /** One popped network: record it for each link back to its first
      computer if it has `size` computers, and otherwise push it grown by
      each other link while it has fewer. */
  method Visit(conns: Connections, size: nat, network: seq<Address>, queue0: seq<seq<Address>>,
               networks0: set<seq<Address>>, ghost d: nat)
    returns (queue: seq<seq<Address>>, networks: set<seq<Address>>)
    requires Closed(conns) && size >= 3 && Growing(conns, network, size)
    requires forall a :: a in conns ==> |conns[a]| <= d
    requires forall k :: 0 <= k < |queue0| ==> Growing(conns, queue0[k], size)
    requires forall t :: t in networks0 ==> IsNetwork(conns, t, size)
    requires CoveredDuring(conns, networks0, queue0, network, conns[network[|network| - 1]], size)
    ensures forall k :: 0 <= k < |queue| ==> Growing(conns, queue[k], size)
    ensures forall t :: t in networks ==> IsNetwork(conns, t, size)
    ensures Covered(conns, networks, queue, size)
    ensures Work(queue, size, d) < Work(queue0, size, d) + Tree(Height(network, size), d)
  {
    queue, networks := queue0, networks0;
    var last := network[|network| - 1];
    var neighbors := conns[last];
    ghost var pushes := 0;
    ghost var h := Height(network, size);
    assert neighbors[0..] == neighbors;
    for i := 0 to |neighbors|
      invariant AllGrowing(conns, queue, size) && AllNetworks(conns, networks, size)
      invariant CoveredDuring(conns, networks, queue, network, neighbors[i..], size)
      invariant pushes <= i
      invariant |network| >= size ==> queue == queue0
      invariant |network| < size ==> Work(queue, size, d) == Work(queue0, size, d) + pushes * Tree(h - 1, d)
    {
      var neighbor := neighbors[i];
      ghost var networksBefore, queueBefore := networks, queue;
      if network[0] == neighbor {
        if |network| == size {
          var t := SortNames(network[..3]);
          NetworkRecorded(conns, network, size);
          networks := networks + {t};
        }
      } else if |network| < size {
        var grown := network + [neighbor];
        GrowingExtend(conns, network, neighbor, size);
        WorkPushed(queue, queue0, grown, pushes, h, size, d);
        GrowingPush(conns, queue, grown, size);
        queue := queue + [grown];
        pushes := pushes + 1;
      }
      CoverStep(conns, networksBefore, networks, queueBefore, queue, network, neighbors, i, size);
    }
    CoverEnd(conns, networks, queue, network, neighbors, size);
    if |network| < size {
      WorkFalls(pushes, d, h);
    }
  }

  /** `networks_of_size`: a worklist, used as a stack, of growing networks,
      one per computer to start with; each popped network is visited.
      The networks recorded are exactly the sorted first three computers
      of the networks of `size`.  Requires `size >= 3`, since the source
      copies three computers out of a network of `size`. */
  method NetworksOfSize(conns: Connections, size: nat) returns (networks: set<seq<Address>>)
    requires Closed(conns) && size >= 3
    ensures forall t :: t in networks <==> IsNetwork(conns, t, size)
  {
    networks := {};
    var keys := Seqs.KeysOf(conns);
    var queue: seq<seq<Address>> := seq(|keys|, k requires 0 <= k < |keys| => [keys[k]]);
    ghost var d := MaxDegree(conns);
    CoverStart(conns, keys, queue, size);
    while |queue| > 0
      invariant forall k :: 0 <= k < |queue| ==> Growing(conns, queue[k], size)
      invariant forall t :: t in networks ==> IsNetwork(conns, t, size)
      invariant Covered(conns, networks, queue, size)
      decreases Work(queue, size, d)
    {
      var network := queue[|queue| - 1];
      ghost var before := queue;
      queue := queue[..|queue| - 1];
      assert before == queue + [network];
      assert Work(before, size, d) == Work(queue, size, d) + Tree(Height(network, size), d);
      CoverPop(conns, networks, queue, network, size);
      queue, networks := Visit(conns, size, network, queue, networks, d);
    }
    NetworksComplete(conns, networks, size);
  }

  /** With nothing left waiting, every network is recorded. */
  lemma NetworksComplete(conns: Connections, networks: set<seq<Address>>, size: nat)
    requires size >= 3 && Covered(conns, networks, [], size)
    ensures forall t :: IsNetwork(conns, t, size) ==> t in networks
  {
    forall t | IsNetwork(conns, t, size) ensures t in networks {
      var n :| Target(conns, n, size) && t == SortNames(n[..3]);
      assert !Pending([], n);
    }
  }

  /** A network of three is a triangle: the sorted names of three
      computers, each linked to the next and the last to the first, the
      second and third both differing from the first.  Without links from
      a computer to itself, all three differ. */
  lemma NetworkOfThree(conns: Connections, t: seq<Address>)
    requires IsNetwork(conns, t, 3)
    ensures |t| == 3 && SortedNames(t)
    ensures exists a, b, c :: (multiset(t) == multiset{a, b, c} &&
      Adjacent(conns, a, b) && Adjacent(conns, b, c) && Adjacent(conns, c, a) && b != a && c != a &&
      ((forall u :: !Adjacent(conns, u, u)) ==> b != c))
  {
    var n :| Target(conns, n, 3) && t == SortNames(n[..3]);
    TriangleLinks(conns, n);
    TriangleNames(n);
    var a, b, c := n[0], n[1], n[2];
    assert (forall u :: !Adjacent(conns, u, u)) ==> b != c;
  }

  /** The sorted first three of a network are its three computers. */
  lemma TriangleNames(n: seq<Address>)
    requires |n| == 3
    ensures |SortNames(n[..3])| == 3 && SortedNames(SortNames(n[..3]))
    ensures multiset(SortNames(n[..3])) == multiset{n[0], n[1], n[2]}
  {
    SortNamesSorted(n[..3]);
    assert n[..3] == [n[0], n[1], n[2]];
  }


  /** The links of a grown network of three that closes on its first computer. */
  lemma TriangleLinks(conns: Connections, n: seq<Address>)
    requires |n| == 3 && Growing(conns, n, 3) && Adjacent(conns, n[2], n[0])
    ensures Adjacent(conns, n[0], n[1]) && Adjacent(conns, n[1], n[2]) && n[1] != n[0] && n[2] != n[0]
  {
    assert 0 < 1 < |n| && 0 < 2 < |n|;
  }

  /** Three computers linked in a ring form a network of three. */
  lemma ExampleTriangle()
    ensures IsNetwork(BuildConnections([("a", "b"), ("b", "c"), ("c", "a")]), ["a", "b", "c"], 3)
  {
    var conns := BuildConnections([("a", "b"), ("b", "c"), ("c", "a")]);
    ExampleRing();
    var n := ["a", "b", "c"];
    assert Growing(conns, n, 3);
    assert n[..3] == n;
    ExampleSorted();
  }

  lemma ExampleRing()
    ensures var conns := BuildConnections([("a", "b"), ("b", "c"), ("c", "a")]);
      Adjacent(conns, "a", "b") && Adjacent(conns, "b", "c") && Adjacent(conns, "c", "a")
  {
    var links := [("a", "b"), ("b", "c"), ("c", "a")];
    BuildLinks(links, "a", "b");
    BuildLinks(links, "b", "c");
    BuildLinks(links, "c", "a");
    assert links[0] == ("a", "b") && links[1] == ("b", "c") && links[2] == ("c", "a");
  }

  lemma ExampleSorted()
    ensures SortNames(["a", "b", "c"]) == ["a", "b", "c"]
  {
    assert LexLe("a", "b") && LexLe("a", "c") && LexLe("b", "c");
    assert SortedNames(["a", "b", "c"]);
    SortNamesSorted(["a", "b", "c"]);
    SortedUnique(SortNames(["a", "b", "c"]), ["a", "b", "c"]);
  }



  /** `address[0..1].eq("t")` over the computers of a network in order;
      None where the slice panics on an empty name before any name starting
      with `t` is reached. */
  function AnyStartsWithT(t: seq<Address>): (r: Option<bool>)
    ensures r == Some(true) ==> exists k :: 0 <= k < |t| && |t[k]| > 0 && t[k][0] == 't'
    ensures r == Some(false) ==> forall k :: 0 <= k < |t| ==> |t[k]| > 0 && t[k][0] != 't'
  {
    if |t| == 0 then Some(false)
    else if |t[0]| == 0 then None
    else if t[0][0] == 't' then Some(true)
    else
      var rest := AnyStartsWithT(t[1..]);
      assert forall k :: 1 <= k < |t| ==> t[k] == t[1..][k - 1];
      rest
  }

  /** `main`'s filter and count over the networks found: how many hold a
      computer whose name starts with `t`; None where the name test panics
      on some network. */
  function CountWithT(networks: set<seq<Address>>): (r: Option<nat>)
    ensures r.None? <==> exists t :: t in networks && AnyStartsWithT(t).None?
    ensures r.Some? ==> r.value <= |networks|
  {
    if exists t :: t in networks && AnyStartsWithT(t).None? then None
    else
      var counted := set t | t in networks && AnyStartsWithT(t) == Some(true);
      Seqs.SubsetCard(counted, networks);
      Some(|counted|)
  }


  /** `main`'s part 1: the networks of three with a computer whose name
      starts with `t`; None where parsing or the name test panics.  The
      networks counted, exactly the networks of three of the links, are
      returned as a ghost result. */
  method Part1(input: string) returns (r: Option<nat>, ghost networks: set<seq<Address>>)
    ensures ParseConnections(input).None? ==> r.None?
    ensures ParseConnections(input).Some? ==>
      (forall t :: t in networks <==> IsNetwork(ParseConnections(input).value, t, 3)) && r == CountWithT(networks)
  {
    var parsed := ParseConnections(input);
    networks := {};
    if parsed.None? {
      return None, networks;
    }
    var found := NetworksOfSize(parsed.value, 3);
    networks := found;
    if exists t :: t in found && AnyStartsWithT(t).None? {
      return None, networks;
    }
    return Some(|set t | t in found && AnyStartsWithT(t) == Some(true)|), networks;
  }


  // ---------------------------------------------------------------------
  // Part 2: Bron–Kerbosch

  /** Every computer in `c` is linked to from every one before it. */
  predicate Clique(conns: Connections, c: seq<Address>) {
    forall i, j :: 0 <= i < j < |c| ==> Adjacent(conns, c[i], c[j])
  }

  /** `w` is linked to from every computer in `c`. */
  predicate Common(conns: Connections, c: seq<Address>, w: Address) {
    forall z :: z in c ==> Adjacent(conns, z, w)
  }

  /** A computer outside a clique and linked to from all of it extends
      it. */
  lemma CliqueExtend(conns: Connections, c: seq<Address>, v: Address)
    requires Clique(conns, c) && Seqs.Distinct(c) && v !in c && Common(conns, c, v)
    ensures Clique(conns, c + [v]) && Seqs.Distinct(c + [v])
  {
    var e := c + [v];
    forall i, j | 0 <= i < j < |e| ensures Adjacent(conns, e[i], e[j]) && e[i] != e[j] {
      if j < |c| {
        assert e[i] == c[i] && e[j] == c[j];
      } else {
        assert e[i] == c[i] && c[i] in c;
      }
    }
  }

  /** A clique of distinct computers that no other computer extends. */
  predicate MaximalClique(conns: Connections, c: seq<Address>) {
    Clique(conns, c) && Seqs.Distinct(c) &&
    forall w :: w in conns && w !in c ==> !Common(conns, c, w)
  }

  /** With links both ways, a clique's computers are linked pairwise. */
  lemma CliqueLinked(conns: Connections, c: seq<Address>, i: nat, j: nat)
    requires Symmetric(conns) && Clique(conns, c) && i < |c| && j < |c| && i != j
    ensures Adjacent(conns, c[i], c[j])
  {
    if j < i {
      assert Adjacent(conns, c[j], c[i]);
    }
  }

  /** `p.iter().filter(|address| neighbors.contains(address))`. */
  function Keep(s: seq<Address>, neighbors: seq<Address>): (r: seq<Address>)
    ensures |r| <= |s|
    ensures forall a :: a in r <==> a in s && a in neighbors
    ensures Seqs.Distinct(s) ==> Seqs.Distinct(r)
  {
    if |s| == 0 then []
    else
      var n := |s| - 1;
      var before := Keep(s[..n], neighbors);
      assert Seqs.Distinct(s) ==> s[n] !in s[..n];
      assert forall a :: a in s <==> a in s[..n] || a == s[n] by {
        assert s == s[..n] + [s[n]];
      }
      if s[n] in neighbors then before + [s[n]] else before
  }

  /** The bookkeeping of `bron_kerbosch`: `recorded` extends `cliques` by
      maximal cliques only. */
  predicate RecordedFrom(conns: Connections, cliques: seq<seq<Address>>, recorded: seq<seq<Address>>) {
    |cliques| <= |recorded| && recorded[..|cliques|] == cliques &&
    forall k :: |cliques| <= k < |recorded| ==> MaximalClique(conns, recorded[k])
  }

  lemma RecordedChain(conns: Connections, a: seq<seq<Address>>, b: seq<seq<Address>>, c: seq<seq<Address>>)
    requires RecordedFrom(conns, a, b) && RecordedFrom(conns, b, c)
    ensures RecordedFrom(conns, a, c)
  {
    assert c[..|a|] == c[..|b|][..|a|];
    forall k | |a| <= k < |c| ensures MaximalClique(conns, c[k]) {
      if k < |b| {
        assert c[k] == c[..|b|][k];
      }
    }
  }

  /** The computers of `s`, as a set. */
  function Elems(s: seq<Address>): set<Address> {
    set a | a in s
  }

  lemma ElemsSnoc(s: seq<Address>, v: Address)
    ensures Elems(s + [v]) == Elems(s) + {v}
  {
    assert forall a :: a in s + [v] <==> a in s || a == v;
  }

  /** Any two different computers of `c` are linked. */
  ghost predicate Mutual(conns: Connections, c: set<Address>) {
    forall a, b :: a in c && b in c && a != b ==> Adjacent(conns, a, b)
  }

  /** A set of computers linked pairwise that no other computer joins: what
      Bron–Kerbosch is meant to record, taken as a set since the order of a
      recorded clique depends on the order of the candidates. */
  ghost predicate MaximalSet(conns: Connections, c: set<Address>) {
    (forall a :: a in c ==> a in conns) && Mutual(conns, c) &&
    forall w :: w in conns && w !in c ==> exists z :: z in c && !Adjacent(conns, z, w)
  }

  /** `c` is among the cliques a call on `r`, `p`, `x` is responsible for:
      it holds `r`, its other computers are candidates, and it avoids every
      computer already tried. */
  ghost predicate Within(r: seq<Address>, p: seq<Address>, x: seq<Address>, c: set<Address>) {
    Elems(r) <= c && c - Elems(r) <= Elems(p) && c !! Elems(x)
  }

  /** Some entry of `recorded` from index `from` on has exactly the
      computers of `c`. */
  ghost predicate Recorded(recorded: seq<seq<Address>>, from: nat, c: set<Address>) {
    exists k :: from <= k < |recorded| && Elems(recorded[k]) == c
  }

  /** Every maximal clique a call on `r`, `p`, `x` is responsible for has
      been recorded from index `from` on. */
  ghost predicate Covers(conns: Connections, r: seq<Address>, p: seq<Address>, x: seq<Address>,
                         recorded: seq<seq<Address>>, from: nat) {
    forall c {:trigger MaximalSet(conns, c)} :: MaximalSet(conns, c) && Within(r, p, x, c) ==> Recorded(recorded, from, c)
  }

  /** Part way through the loop of `bron_kerbosch`: each maximal clique the
      call is responsible for is recorded already or is still reachable
      from the remaining candidates and the computers tried so far. */
  ghost predicate CoversDuring(conns: Connections, r: seq<Address>, p: seq<Address>, x: seq<Address>,
                               recorded: seq<seq<Address>>, from: nat,
                               candidates: seq<Address>, tried: seq<Address>) {
    forall c {:trigger MaximalSet(conns, c)} :: MaximalSet(conns, c) && Within(r, p, x, c) ==>
      Recorded(recorded, from, c) || Within(r, candidates, tried, c)
  }

  /** Popping `v`: a maximal clique holding `v` is recorded by the recursive
      call, one without `v` stays reachable with `v` moved to the tried
      computers. */
  lemma CoversPop(conns: Connections, r: seq<Address>, p: seq<Address>, x: seq<Address>,
                  before: seq<seq<Address>>, recorded: seq<seq<Address>>, from: nat,
                  candidates: seq<Address>, tried: seq<Address>)
    requires |candidates| > 0 && candidates[|candidates| - 1] in conns
    requires CoversDuring(conns, r, p, x, before, from, candidates, tried)
    requires from <= |before| <= |recorded| && recorded[..|before|] == before
    requires var n := |candidates| - 1; var v := candidates[n];
      Covers(conns, r + [v], Keep(candidates[..n], conns[v]), Keep(tried, conns[v]), recorded, |before|)
    ensures var n := |candidates| - 1;
      CoversDuring(conns, r, p, x, recorded, from, candidates[..n], tried + [candidates[n]])
  {
    var n := |candidates| - 1;
    var v := candidates[n];
    var rest := candidates[..n];
    assert candidates == rest + [v];
    ElemsSnoc(r, v);
    ElemsSnoc(tried, v);
    forall c | MaximalSet(conns, c) && Within(r, p, x, c)
      ensures Recorded(recorded, from, c) || Within(r, rest, tried + [v], c)
    {
      if Recorded(before, from, c) {
        var k :| from <= k < |before| && Elems(before[k]) == c;
        assert recorded[k] == before[k];
      } else if v in c {
        assert Within(r, candidates, tried, c);
        assert Within(r + [v], Keep(rest, conns[v]), Keep(tried, conns[v]), c) by {
          forall w | w in c && w !in Elems(r + [v]) ensures w in Keep(rest, conns[v]) {
            assert w in Elems(candidates) && w != v;
            assert Adjacent(conns, v, w);
          }
        }
        var k :| |before| <= k < |recorded| && Elems(recorded[k]) == c;
      } else {
        assert Within(r, candidates, tried, c);
        forall w | w in c && w !in Elems(r) ensures w in rest {
          assert w in Elems(candidates);
        }
      }
    }
  }

  /** With candidates left none, the maximal cliques still reachable would
      have to be `r` itself, which a computer tried, linked from all of `r`
      and kept out of the clique, would extend. */
  lemma TriedExtends(conns: Connections, r: seq<Address>, tried: seq<Address>, c: set<Address>)
    requires MaximalSet(conns, c) && |tried| > 0
    requires tried[0] in conns && Common(conns, r, tried[0])
    ensures !Within(r, [], tried, c)
  {
    var t := tried[0];
    if t !in c {
      var z :| z in c && !Adjacent(conns, z, t);
      assert z !in r;
      assert z in c - Elems(r);
    } else {
      assert t in c * Elems(tried);
    }
  }

  lemma CoversEnd(conns: Connections, r: seq<Address>, p: seq<Address>, x: seq<Address>,
                  recorded: seq<seq<Address>>, from: nat, tried: seq<Address>)
    requires CoversDuring(conns, r, p, x, recorded, from, [], tried)
    requires |tried| > 0 && forall w :: w in tried ==> w in conns && Common(conns, r, w)
    ensures Covers(conns, r, p, x, recorded, from)
  {
    forall c | MaximalSet(conns, c) && Within(r, p, x, c) ensures Recorded(recorded, from, c) {
      TriedExtends(conns, r, tried, c);
    }
  }

  /** The arguments `bron_kerbosch` passes on popping `v`, the last of
      the candidates, meet its own requirements. */
  lemma PopReady(conns: Connections, r: seq<Address>, p: seq<Address>,
                 candidates: seq<Address>, tried: seq<Address>)
    requires |candidates| > 0 && Seqs.Distinct(candidates)
    requires forall y :: y in candidates ==> y in p
    requires forall y :: y in p ==> y in conns && y !in r && Common(conns, r, y)
    requires Clique(conns, r) && Seqs.Distinct(r)
    requires forall w :: w in conns && w !in r && Common(conns, r, w) ==> w in candidates || w in tried
    requires forall w :: w in tried ==> w in conns && Common(conns, r, w)
    ensures var n := |candidates| - 1; var v := candidates[n];
      var nextR, nextP, nextX := r + [v], Keep(candidates[..n], conns[v]), Keep(tried, conns[v]);
      v in conns &&
      (forall y :: y in nextP ==> y in conns) &&
      Clique(conns, nextR) && Seqs.Distinct(nextR) && Seqs.Distinct(nextP) &&
      (forall y :: y in nextP ==> y !in nextR && Common(conns, nextR, y)) &&
      (forall w :: w in conns && w !in nextR && Common(conns, nextR, w) ==> w in nextP || w in nextX) &&
      (forall w :: w in nextX ==> w in conns && Common(conns, nextR, w)) &&
      Seqs.Distinct(candidates[..n]) && (forall y :: y in candidates[..n] ==> y in p) &&
      (forall w :: w in conns && w !in r && Common(conns, r, w) ==> w in candidates[..n] || w in tried + [v]) &&
      (forall w :: w in tried + [v] ==> w in conns && Common(conns, r, w))
  {
    var n := |candidates| - 1;
    var v := candidates[n];
    var rest := candidates[..n];
    assert candidates == rest + [v];
    var nextR, nextP, nextX := r + [v], Keep(rest, conns[v]), Keep(tried, conns[v]);
    CliqueExtend(conns, r, v);
    forall y | y in nextP ensures y !in nextR && Common(conns, nextR, y) {
      assert y in p;
      assert y != v;
    }
    forall w | w in conns && w !in nextR && Common(conns, nextR, w) ensures w in nextP || w in nextX {
      assert Common(conns, r, w);
      assert v in nextR;
      assert w in candidates || w in tried;
    }
    forall w | w in nextX ensures w in conns && Common(conns, nextR, w) {
      assert w in tried;
    }
  }

  /** `bron_kerbosch(r, p, x, cliques)`: `r` is the clique so far, `p` the
      computers that may still join it, `x` those already tried.  It
      records `r` when `p` and `x` are both empty and otherwise pops each
      `v` from `p`, recurses on `r + [v]` with `p` and `x` kept to `v`'s
      list, and moves `v` to `x`.  When no computer has been tried
      (`x` empty), something is recorded. */
  method BronKerbosch(conns: Connections, r: seq<Address>, p: seq<Address>, x: seq<Address>,
                      cliques: seq<seq<Address>>) returns (recorded: seq<seq<Address>>)
    requires forall y :: y in p ==> y in conns
    requires Clique(conns, r) && Seqs.Distinct(r) && Seqs.Distinct(p)
    requires forall y :: y in p ==> y !in r && Common(conns, r, y)
    requires forall w :: w in conns && w !in r && Common(conns, r, w) ==> w in p || w in x
    requires forall w :: w in x ==> w in conns && Common(conns, r, w)
    ensures RecordedFrom(conns, cliques, recorded)
    ensures x == [] ==> |recorded| > |cliques|
    ensures Covers(conns, r, p, x, recorded, |cliques|)
    decreases |p|, 1
  {
    if |p| == 0 && |x| == 0 {
      recorded := cliques + [r];
      forall c | MaximalSet(conns, c) && Within(r, p, x, c) ensures Recorded(recorded, |cliques|, c) {
        assert Elems(recorded[|cliques|]) == c;
      }
      return;
    }
    var candidates, tried := p, x;
    recorded := cliques;
    while |candidates| > 0
      invariant |candidates| <= |p| && Seqs.Distinct(candidates)
      invariant forall y :: y in candidates ==> y in p
      invariant forall w :: w in conns && w !in r && Common(conns, r, w) ==> w in candidates || w in tried
      invariant forall w :: w in tried ==> w in conns && Common(conns, r, w)
      invariant RecordedFrom(conns, cliques, recorded)
      invariant x == [] && candidates == p ==> tried == []
      invariant x == [] ==> |recorded| > |cliques| || candidates == p
      invariant |tried| == |x| + |p| - |candidates|
      invariant CoversDuring(conns, r, p, x, recorded, |cliques|, candidates, tried)
      decreases |candidates|
    {
      var before := recorded;
      candidates, tried, recorded := Pop(conns, r, p, x, |cliques|, candidates, tried, recorded);
      RecordedChain(conns, cliques, before, recorded);
    }
    CoversEnd(conns, r, p, x, recorded, |cliques|, tried);
  }

  /** One turn of the loop of `bron_kerbosch`: pop `v` from the
      candidates, recurse on `r + [v]` with the candidates and the tried
      computers kept to `v`'s list, and move `v` to the tried ones. */
  method Pop(conns: Connections, r: seq<Address>, p: seq<Address>, x: seq<Address>, ghost from: nat,
             candidates: seq<Address>, tried: seq<Address>, recorded: seq<seq<Address>>)
    returns (candidates': seq<Address>, tried': seq<Address>, recorded': seq<seq<Address>>)
    requires |candidates| > 0 && |candidates| <= |p| && Seqs.Distinct(candidates)
    requires forall y :: y in candidates ==> y in p
    requires forall y :: y in p ==> y in conns && y !in r && Common(conns, r, y)
    requires Clique(conns, r) && Seqs.Distinct(r)
    requires forall w :: w in conns && w !in r && Common(conns, r, w) ==> w in candidates || w in tried
    requires forall w :: w in tried ==> w in conns && Common(conns, r, w)
    requires from <= |recorded| && CoversDuring(conns, r, p, x, recorded, from, candidates, tried)
    ensures candidates' == candidates[..|candidates| - 1] && tried' == tried + [candidates[|candidates| - 1]]
    ensures Seqs.Distinct(candidates') && forall y :: y in candidates' ==> y in p
    ensures forall w :: w in conns && w !in r && Common(conns, r, w) ==> w in candidates' || w in tried'
    ensures forall w :: w in tried' ==> w in conns && Common(conns, r, w)
    ensures RecordedFrom(conns, recorded, recorded')
    ensures tried == [] ==> |recorded'| > |recorded|
    ensures CoversDuring(conns, r, p, x, recorded', from, candidates', tried')
    decreases |candidates|, 0
  {
    var n := |candidates| - 1;
    var v := candidates[n];
    PopReady(conns, r, p, candidates, tried);
    candidates' := candidates[..n];
    var neighbors := conns[v];
    recorded' := BronKerbosch(conns, r + [v], Keep(candidates', neighbors), Keep(tried, neighbors), recorded);
    CoversPop(conns, r, p, x, recorded, recorded', from, candidates, tried);
    tried' := tried + [v];
  }

  /** `max_by_key(len)`: the index of a longest entry, the last one among
      equals. */
  function LongestIndex(cs: seq<seq<Address>>): (k: nat)
    requires |cs| > 0
    ensures k < |cs|
    ensures forall j :: 0 <= j < |cs| ==> |cs[j]| <= |cs[k]|
    ensures forall j :: k < j < |cs| ==> |cs[j]| < |cs[k]|
  {
    if |cs| == 1 then 0
    else
      var n := |cs| - 1;
      var best := LongestIndex(cs[..n]);
      assert forall j :: 0 <= j < n ==> cs[..n][j] == cs[j];
      if |cs[n]| >= |cs[best]| then n else best
  }

  /** With links both ways, a set of computers linked pairwise grows,
      one computer at a time, into a maximal one. */
  lemma {:induction false} ExtendToMaximal(conns: Connections, s: set<Address>) returns (c: set<Address>)
    requires Symmetric(conns) && (forall a :: a in s ==> a in conns) && Mutual(conns, s)
    ensures MaximalSet(conns, c) && s <= c
    decreases |conns.Keys - s|
  {
    if w :| w in conns && w !in s && forall z :: z in s ==> Adjacent(conns, z, w) {
      var grown := s + {w};
      assert conns.Keys - s == (conns.Keys - grown) + {w};
      forall a, b | a in grown && b in grown && a != b ensures Adjacent(conns, a, b) {
        if a == w {
          assert Adjacent(conns, b, w);
        }
      }
      c := ExtendToMaximal(conns, grown);
    } else {
      c := s;
    }
  }

  /** No clique of distinct computers of the links is longer than `c`. */
  ghost predicate NoLarger(conns: Connections, c: seq<Address>) {
    forall d :: Clique(conns, d) && Seqs.Distinct(d) && (forall a :: a in d ==> a in conns) ==> |d| <= |c|
  }

  /** A clique of distinct computers of the links has no more computers
      than some recorded clique, once every maximal clique is recorded. */
  lemma RecordedBound(conns: Connections, recorded: seq<seq<Address>>, c: seq<Address>)
    requires Symmetric(conns) && Clique(conns, c) && Seqs.Distinct(c)
    requires forall a :: a in c ==> a in conns
    requires forall k :: 0 <= k < |recorded| ==> MaximalClique(conns, recorded[k])
    requires forall m {:trigger MaximalSet(conns, m)} :: MaximalSet(conns, m) ==> Recorded(recorded, 0, m)
    ensures exists k :: 0 <= k < |recorded| && |c| <= |recorded[k]|
  {
    forall a, b | a in Elems(c) && b in Elems(c) && a != b ensures Adjacent(conns, a, b) {
      var i :| 0 <= i < |c| && c[i] == a;
      var j :| 0 <= j < |c| && c[j] == b;
      CliqueLinked(conns, c, i, j);
    }
    var m := ExtendToMaximal(conns, Elems(c));
    var k :| 0 <= k < |recorded| && Elems(recorded[k]) == m;
    Seqs.DistinctCard(c);
    Seqs.DistinctCard(recorded[k]);
    Seqs.SubsetCard(Elems(c), m);
  }

  /** `max_cliques`: Bron–Kerbosch from the empty clique with every
      computer a candidate, then a longest recorded clique.  Since nothing
      has been tried at the start, at least one clique is recorded, so the
      source's `unwrap` never panics.  The cliques recorded are returned as
      a ghost result: every maximal clique is among them, and so, with
      links both ways, the longest one is a largest clique of all. */
  method MaxCliques(conns: Connections) returns (longest: seq<Address>, ghost recorded: seq<seq<Address>>)
    requires Closed(conns)
    ensures MaximalClique(conns, longest)
    ensures longest in recorded && forall c :: c in recorded ==> |c| <= |longest|
    ensures forall c :: c in recorded ==> MaximalClique(conns, c)
    ensures forall m {:trigger MaximalSet(conns, m)} :: MaximalSet(conns, m) ==> Recorded(recorded, 0, m)
    ensures Symmetric(conns) ==> NoLarger(conns, longest)
  {
    var keys := Seqs.KeysOf(conns);
    var cliques := BronKerbosch(conns, [], keys, [], []);
    var best := LongestIndex(cliques);
    longest := cliques[best];
    recorded := cliques;
    forall m | MaximalSet(conns, m) ensures Recorded(recorded, 0, m) {
      assert Within([], keys, [], m) by {
        forall a | a in m ensures a in Elems(keys) {
          assert a in conns;
        }
      }
    }
    if Symmetric(conns) {
      forall c | Clique(conns, c) && Seqs.Distinct(c) && (forall a :: a in c ==> a in conns)
        ensures |c| <= |longest|
      {
        RecordedBound(conns, recorded, c);
      }
    }
  }

  /** `main`'s part 2: the longest clique's names, sorted and joined by
      commas; None where parsing panics.  The clique named is maximal and
      no clique of the links is larger. */
  method Part2(input: string) returns (r: Option<string>)
    ensures r.Some? <==> ParseConnections(input).Some?
    ensures r.Some? ==> exists c :: (MaximalClique(ParseConnections(input).value, c) &&
      NoLarger(ParseConnections(input).value, c) && r.value == Text.Join(SortNames(c), ","))
  {
    var parsed := ParseConnections(input);
    if parsed.None? {
      return None;
    }
    var longest, recorded := MaxCliques(parsed.value);
    return Some(Text.Join(SortNames(longest), ","));
  }
}
