/**
 The bounded crawl for peers of peers (`src/peerd/crawl.rs`, `crawl_peers_with`): hop by hop,
 every new host is asked for its peers, within a query budget, the answers taken in whatever order
 they come.

 The reference is the set of hosts at each distance from the seeds.
 */
module Crawl {
  import opened Primitives

  type Ip = string

  const MAX_PEERS_PER_QUERY_RESPONSE: nat := 512
  const MAX_CANDIDATES: nat := 20_000

  // The peers of an answer that are looked at.
  function Taken(answer: seq<Ip>): seq<Ip> {
    if |answer| <= MAX_PEERS_PER_QUERY_RESPONSE then answer else answer[..MAX_PEERS_PER_QUERY_RESPONSE]
  }

  function Others(ips: seq<Ip>, self: set<Ip>): set<Ip> {
    set ip | ip in ips && ip !in self
  }

  // ---- the reference: hosts by distance ----

  // This daemon's own addresses, and what each host answers when asked for its peers; a host that is
  // not listed does not answer, which counts as an empty answer.
  datatype Net = Net(self: set<Ip>, answers: map<Ip, seq<Ip>>) {
    function Query(h: Ip): seq<Ip> {
      if h in answers then answers[h] else []
    }

    // The non-self peers a host advertises.
    function Peers(h: Ip): set<Ip> {
      Others(Taken(Query(h)), self)
    }
  }

  ghost function Advertised(hosts: set<Ip>, g: Net): set<Ip> {
    if hosts == {} then {}
    else
      var h :| h in hosts;
      g.Peers(h) + Advertised(hosts - {h}, g)
  }

  ghost predicate Advertises(hosts: set<Ip>, g: Net, p: Ip) {
    exists h :: h in hosts && p in g.Peers(h)
  }

  lemma {:induction false} AdvertisedIff(hosts: set<Ip>, g: Net, p: Ip)
    ensures p in Advertised(hosts, g) <==> Advertises(hosts, g, p)
    decreases hosts
  {
    if hosts != {} {
      var x :| x in hosts && Advertised(hosts, g) == g.Peers(x) + Advertised(hosts - {x}, g);
      AdvertisedIff(hosts - {x}, g, p);
      if Advertises(hosts, g, p) {
        var h :| h in hosts && p in g.Peers(h);
        if h != x {
          assert h in hosts - {x};
        }
      }
    }
  }

  // `seeds`, and what `hosts` advertise.
  ghost function Reach(seeds: set<Ip>, g: Net, hosts: set<Ip>): set<Ip> {
    seeds + Advertised(hosts, g)
  }

  // The hosts at distance less than `n` from the seeds.
  ghost function Hosts(seeds: set<Ip>, g: Net, n: nat): set<Ip> {
    if n == 0 then {} else Reach(seeds, g, Hosts(seeds, g, n - 1))
  }

  lemma ReachGrows(seeds: set<Ip>, g: Net, a: set<Ip>, b: set<Ip>)
    requires a <= b
    ensures Reach(seeds, g, a) <= Reach(seeds, g, b)
  {
    forall p | p in Advertised(a, g) ensures p in Advertised(b, g) {
      AdvertisedIff(a, g, p);
      AdvertisedIff(b, g, p);
    }
  }

  lemma {:induction false} HostsGrow(seeds: set<Ip>, g: Net, m: nat, n: nat)
    requires m <= n
    ensures Hosts(seeds, g, m) <= Hosts(seeds, g, n)
  {
    if m > 0 {
      HostsGrow(seeds, g, m - 1, n - 1);
      ReachGrows(seeds, g, Hosts(seeds, g, m - 1), Hosts(seeds, g, n - 1));
    }
  }

  lemma {:induction false} ReachAvoids(seeds: set<Ip>, g: Net, hosts: set<Ip>)
    requires seeds !! g.self
    ensures Reach(seeds, g, hosts) !! g.self && Advertised(hosts, g) !! g.self
  {
    forall p | p in Advertised(hosts, g) ensures p !in g.self {
      AdvertisedIff(hosts, g, p);
    }
  }

  // Once a hop brings nothing new, no later one does.
  lemma {:induction false} HostsSettle(seeds: set<Ip>, g: Net, m: nat, n: nat)
    requires m <= n && Hosts(seeds, g, m + 1) == Hosts(seeds, g, m)
    ensures Hosts(seeds, g, n) == Hosts(seeds, g, m)
    decreases n
  {
    if m < n {
      HostsSettle(seeds, g, m, n - 1);
    }
  }

  lemma {:induction false} AdvertisedUnion(a: set<Ip>, b: set<Ip>, g: Net)
    ensures Advertised(a + b, g) == Advertised(a, g) + Advertised(b, g)
  {
    forall p ensures p in Advertised(a + b, g) <==> p in Advertised(a, g) + Advertised(b, g) {
      AdvertisedIff(a + b, g, p);
      AdvertisedIff(a, g, p);
      AdvertisedIff(b, g, p);
    }
  }

  // ---- one hop ----

  method SelectTargets(frontier: seq<Ip>, visited: set<Ip>, remaining: nat) returns (targets: seq<Ip>, now: set<Ip>)
    ensures NoDuplicates(targets) && |targets| <= remaining
    ensures now == visited + ToSet(targets) && visited !! ToSet(targets)
    ensures ToSet(targets) <= ToSet(frontier)
    ensures |targets| == remaining || ToSet(frontier) <= now
  {
    targets, now := [], visited;
    for i := 0 to |frontier|
      invariant NoDuplicates(targets) && |targets| <= remaining
      invariant now == visited + ToSet(targets) && visited !! ToSet(targets)
      invariant ToSet(targets) <= ToSet(frontier)
      invariant ToSet(frontier[..i]) <= now
    {
      if |targets| >= remaining {
        return;
      }
      var ip := frontier[i];
      assert frontier[..i + 1] == frontier[..i] + [ip];
      if ip !in now {
        now := now + {ip};
        targets := targets + [ip];
      }
    }
    assert frontier[..|frontier|] == frontier;
  }

  // `discovered` holds everything in `all`, or as much of it as fits.
  ghost predicate Holds(discovered: set<Ip>, all: set<Ip>) {
    && discovered <= all && |discovered| <= MAX_CANDIDATES
    && (|discovered| < MAX_CANDIDATES ==> discovered == all)
  }

  // One answer.
  method TakeAnswer(answer: seq<Ip>, self: set<Ip>, visited: set<Ip>, discovered: set<Ip>, next: seq<Ip>,
                    queued: set<Ip>, ghost all: set<Ip>)
    returns (discovered': set<Ip>, next': seq<Ip>, queued': set<Ip>)
    requires queued == ToSet(next) && Holds(discovered, all)
    ensures Queues(queued', next', queued, Others(Taken(answer), self), visited)
    ensures Holds(discovered', all + Others(Taken(answer), self))
  {
    discovered', next', queued' := discovered, next, queued;
    var peers := Taken(answer);
    ghost var others: set<Ip> := {};
    for i := 0 to |peers|
      invariant others == Others(peers[..i], self)
      invariant Queues(queued', next', queued, others, visited)
      invariant Holds(discovered', all + others)
    {
      var p := peers[i];
      OthersStep(peers, i, self);
      if p in self {
        continue;
      }
      HoldsMore(discovered', all, others, p);
      QueuesMore(queued', next', queued, others, visited, p);
      if |discovered'| < MAX_CANDIDATES {
        discovered' := discovered' + {p};
      }
      if p !in visited && p !in queued' {
        queued' := queued' + {p};
        next' := next' + [p];
      }
      others := others + {p};
    }
    assert peers[..|peers|] == peers;
  }

  // `next`, and its set, hold what they held before and the unvisited ones of `others`.
  ghost predicate Queues(queued: set<Ip>, next: seq<Ip>, before: set<Ip>, others: set<Ip>, visited: set<Ip>) {
    queued == ToSet(next) == before + (others - visited)
  }

  lemma QueuesMore(queued: set<Ip>, next: seq<Ip>, before: set<Ip>, others: set<Ip>, visited: set<Ip>, p: Ip)
    requires Queues(queued, next, before, others, visited)
    ensures if p !in visited && p !in queued
            then Queues(queued + {p}, next + [p], before, others + {p}, visited)
            else Queues(queued, next, before, others + {p}, visited)
  {
    assert ToSet(next + [p]) == ToSet(next) + {p};
  }

  lemma OthersStep(peers: seq<Ip>, i: nat, self: set<Ip>)
    requires i < |peers|
    ensures Others(peers[..i + 1], self) == Others(peers[..i], self) + if peers[i] in self then {} else {peers[i]}
  {
    assert peers[..i + 1] == peers[..i] + [peers[i]];
  }

  lemma HoldsMore(discovered: set<Ip>, all: set<Ip>, others: set<Ip>, p: Ip)
    requires Holds(discovered, all + others)
    ensures Holds(if |discovered| < MAX_CANDIDATES then discovered + {p} else discovered, all + (others + {p}))
  {
    if |discovered| < MAX_CANDIDATES {
      assert all + (others + {p}) == discovered + {p};
      if p in discovered {
        assert discovered + {p} == discovered;
      }
    }
  }

  // The answers of the hosts in `answered` are in, after those of `asked` on earlier hops.
  ghost predicate Gathered(g: Net, visited: set<Ip>, asked: set<Ip>, answered: set<Ip>,
                           discovered: set<Ip>, next: seq<Ip>, queued: set<Ip>) {
    && Holds(discovered, Advertised(asked + answered, g))
    && Queues(queued, next, {}, Advertised(answered, g), visited)
  }

  lemma GatheredMore(g: Net, visited: set<Ip>, asked: set<Ip>, answered: set<Ip>, ip: Ip,
                     discovered: set<Ip>, next: seq<Ip>, queued: set<Ip>, before: set<Ip>)
    requires Holds(discovered, Advertised(asked + answered, g) + g.Peers(ip))
    requires before == Advertised(answered, g) - visited
    requires Queues(queued, next, before, g.Peers(ip), visited)
    ensures Gathered(g, visited, asked, answered + {ip}, discovered, next, queued)
  {
    AnswersAdd(asked + answered, ip, g);
    AnswersAdd(answered, ip, g);
    assert asked + (answered + {ip}) == asked + answered + {ip};
  }

  method TakeOne(ip: Ip, g: Net, visited: set<Ip>, discovered: set<Ip>, next: seq<Ip>, queued: set<Ip>,
                 ghost asked: set<Ip>, ghost answered: set<Ip>)
    returns (discovered': set<Ip>, next': seq<Ip>, queued': set<Ip>)
    requires Gathered(g, visited, asked, answered, discovered, next, queued)
    ensures Gathered(g, visited, asked, answered + {ip}, discovered', next', queued')
  {
    ghost var before := Advertised(asked + answered, g);
    discovered', next', queued' := TakeAnswer(g.Query(ip), g.self, visited, discovered, next, queued, before);
    GatheredMore(g, visited, asked, answered, ip, discovered', next', queued', queued);
  }

  // The answers of one hop, in any order.
  method Gather(targets: set<Ip>, g: Net, visited: set<Ip>, discovered: set<Ip>, ghost asked: set<Ip>)
    returns (discovered': set<Ip>, next: seq<Ip>)
    requires Holds(discovered, Advertised(asked, g))
    ensures Holds(discovered', Advertised(asked + targets, g))
    ensures ToSet(next) == Advertised(targets, g) - visited
  {
    discovered', next := discovered, [];
    var queued: set<Ip>, pending := {}, targets;
    ghost var answered: set<Ip> := {};
    GatheredNone(g, visited, asked, discovered);
    while pending != {}
      invariant targets == answered + pending
      invariant Gathered(g, visited, asked, answered, discovered', next, queued)
      decreases pending
    {
      var ip :| ip in pending;
      discovered', next, queued := TakeOne(ip, g, visited, discovered', next, queued, asked, answered);
      OneAnswered(targets, answered, pending, ip);
      answered, pending := answered + {ip}, pending - {ip};
    }
    GatheredAll(g, visited, asked, targets, answered, discovered', next, queued);
  }

  lemma GatheredNone(g: Net, visited: set<Ip>, asked: set<Ip>, discovered: set<Ip>)
    requires Holds(discovered, Advertised(asked, g))
    ensures Gathered(g, visited, asked, {}, discovered, [], {})
  {
    assert asked + {} == asked;
  }

  lemma {:induction false} GatheredAll(g: Net, visited: set<Ip>, asked: set<Ip>, targets: set<Ip>, answered: set<Ip>,
                    discovered: set<Ip>, next: seq<Ip>, queued: set<Ip>)
    requires Gathered(g, visited, asked, answered, discovered, next, queued) && targets == answered + {}
    ensures Holds(discovered, Advertised(asked + targets, g)) && ToSet(next) == Advertised(targets, g) - visited
  {
    assert answered == targets;
  }

  lemma OneAnswered(targets: set<Ip>, answered: set<Ip>, pending: set<Ip>, ip: Ip)
    requires targets == answered + pending && ip in pending
    ensures targets == (answered + {ip}) + (pending - {ip})
  {
  }

  lemma {:induction false} AnswersAdd(hosts: set<Ip>, ip: Ip, g: Net)
    ensures Advertised(hosts + {ip}, g) == Advertised(hosts, g) + g.Peers(ip)
  {
    AdvertisedUnion(hosts, {ip}, g);
    assert {ip} - {ip} == {};
  }

  // ---- the crawl ----

  // After `n` hops: either the budget is spent, or every host nearer than `n` has been asked and the
  // frontier holds the rest of those nearer than `n + 1`.
  ghost predicate After(n: nat, visited: set<Ip>, frontier: seq<Ip>, spent: bool,
                        seeds: set<Ip>, g: Net) {
    && visited <= Hosts(seeds, g, n)
    && (!spent ==>
          && visited == Hosts(seeds, g, n)
          && visited + ToSet(frontier) == Hosts(seeds, g, n + 1))
  }

  lemma {:induction false} NextHop(n: nat, visited: set<Ip>, frontier: seq<Ip>, targets: set<Ip>, next: seq<Ip>,
                seeds: set<Ip>, g: Net, spent: bool)
    requires After(n, visited, frontier, false, seeds, g)
    requires targets <= ToSet(frontier)
    requires ToSet(next) == Advertised(targets, g) - (visited + targets)
    requires spent || ToSet(frontier) <= visited + targets
    ensures After(n + 1, visited + targets, next, spent, seeds, g)
  {
    if !spent {
      AdvertisedUnion(visited, targets, g);
      assert visited + targets == Hosts(seeds, g, n + 1);
    }
    HostsGrow(seeds, g, n, n + 1);
  }

  // A budget that covers every host leaves none out.
  lemma AllAsked(asked: seq<Ip>, hosts: set<Ip>, maxQueries: nat)
    requires NoDuplicates(asked) && ToSet(asked) <= hosts
    requires |asked| == maxQueries || ToSet(asked) == hosts
    requires |hosts| <= maxQueries
    ensures ToSet(asked) == hosts
  {
    NoDuplicatesSize(asked);
    if ToSet(asked) != hosts {
      SmallerSubset(ToSet(asked), hosts);
    }
  }

  // With no cap reached, everything they advertise is discovered.
  lemma {:induction false} Exact(asked: seq<Ip>, hosts: set<Ip>, discovered: set<Ip>, maxQueries: nat, g: Net)
    requires NoDuplicates(asked) && ToSet(asked) <= hosts
    requires |asked| == maxQueries || ToSet(asked) == hosts
    requires Holds(discovered, Advertised(ToSet(asked), g))
    ensures |hosts| <= maxQueries && |Advertised(hosts, g)| <= MAX_CANDIDATES
            ==> discovered == Advertised(hosts, g)
  {
    var all := Advertised(hosts, g);
    if |hosts| <= maxQueries && |all| <= MAX_CANDIDATES {
      AllAsked(asked, hosts, maxQueries);
      if discovered != all {
        SmallerSubset(discovered, all);
      }
    }
  }

  lemma SmallerSubset(a: set<Ip>, b: set<Ip>)
    requires a <= b && a != b
    ensures |a| < |b|
  {
    var x :| x in b && x !in a;
    assert a <= b - {x};
    SubsetSize(a, b - {x});
  }

  lemma {:induction false} SubsetSize(a: set<Ip>, b: set<Ip>)
    requires a <= b
    ensures |a| <= |b|
    decreases b
  {
    if a != {} {
      var x :| x in a;
      SubsetSize(a - {x}, b - {x});
    }
  }

  // Every host asked and everything they advertise returned, so far as the caps allow.
  ghost predicate Complete(seeds: set<Ip>, g: Net, depth: nat, maxQueries: nat, discovered: set<Ip>, asked: seq<Ip>) {
    && NoDuplicates(asked) && |asked| <= maxQueries
    && ToSet(asked) <= Hosts(seeds, g, depth)
    && (|asked| == maxQueries || ToSet(asked) == Hosts(seeds, g, depth))
    && Holds(discovered, Advertised(ToSet(asked), g))
  }

  lemma {:induction false} HostsAvoid(seeds: set<Ip>, g: Net, n: nat)
    requires seeds !! g.self
    ensures Hosts(seeds, g, n) !! g.self
  {
    if n > 0 {
      ReachAvoids(seeds, g, Hosts(seeds, g, n - 1));
    }
  }

  method CrawlPeers(seeds: seq<Ip>, g: Net, depth: nat, maxQueries: nat) returns (discovered: set<Ip>, asked: seq<Ip>)
    ensures Complete(Others(seeds, g.self), g, depth, maxQueries, discovered, asked)
    ensures ToSet(asked) !! g.self && discovered !! g.self
    ensures var hosts := Hosts(Others(seeds, g.self), g, depth);
            |hosts| <= maxQueries && |Advertised(hosts, g)| <= MAX_CANDIDATES
            ==> discovered == Advertised(hosts, g)
  {
    ghost var start := Others(seeds, g.self);
    discovered, asked := Hops(Without(seeds, g.self), g, depth, maxQueries, start);
    HostsAvoid(start, g, depth);
    ReachAvoids(start, g, ToSet(asked));
    Exact(asked, Hosts(start, g, depth), discovered, maxQueries, g);
  }

  // After `n` hops.
  ghost predicate Crawled(n: nat, visited: set<Ip>, frontier: seq<Ip>, discovered: set<Ip>, asked: seq<Ip>,
                          maxQueries: nat, seeds: set<Ip>, g: Net) {
    && NoDuplicates(asked) && |asked| <= maxQueries && visited == ToSet(asked)
    && After(n, visited, frontier, |asked| == maxQueries, seeds, g)
    && Holds(discovered, Advertised(visited, g))
  }

  lemma CrawledFurther(n: nat, visited: set<Ip>, frontier: seq<Ip>, asked: seq<Ip>, maxQueries: nat,
                       seeds: set<Ip>, g: Net, targets: seq<Ip>, now: set<Ip>, discovered: set<Ip>, next: seq<Ip>)
    requires NoDuplicates(asked) && |asked| < maxQueries && visited == ToSet(asked)
    requires After(n, visited, frontier, false, seeds, g)
    requires NoDuplicates(targets) && now == visited + ToSet(targets) && visited !! ToSet(targets)
    requires ToSet(targets) <= ToSet(frontier) && |targets| <= maxQueries - |asked|
    requires |targets| == maxQueries - |asked| || ToSet(frontier) <= now
    requires Holds(discovered, Advertised(visited + ToSet(targets), g))
    requires ToSet(next) == Advertised(ToSet(targets), g) - now
    ensures Crawled(n + 1, now, next, discovered, asked + targets, maxQueries, seeds, g)
  {
    NextHop(n, visited, frontier, ToSet(targets), next, seeds, g, |asked + targets| == maxQueries);
    NoDuplicatesConcat(asked, targets);
  }

  // One hop; there is no other when it finds no host to ask.
  method Hop(visited: set<Ip>, frontier: seq<Ip>, discovered: set<Ip>, asked: seq<Ip>, maxQueries: nat, g: Net,
             ghost n: nat, ghost seeds: set<Ip>)
    returns (now: set<Ip>, next: seq<Ip>, discovered': set<Ip>, asked': seq<Ip>, more: bool)
    requires Crawled(n, visited, frontier, discovered, asked, maxQueries, seeds, g) && |asked| < maxQueries
    ensures more ==> Crawled(n + 1, now, next, discovered', asked', maxQueries, seeds, g)
    ensures !more ==> ToSet(frontier) <= visited
  {
    var targets;
    targets, now := SelectTargets(frontier, visited, maxQueries - |asked|);
    if targets == [] {
      return now, [], discovered, asked, false;
    }
    discovered', next := Gather(ToSet(targets), g, now, discovered, visited);
    CrawledFurther(n, visited, frontier, asked, maxQueries, seeds, g, targets, now, discovered', next);
    asked', more := asked + targets, true;
  }

  method Hops(start: seq<Ip>, g: Net, depth: nat, maxQueries: nat, ghost seeds: set<Ip>)
    returns (discovered: set<Ip>, asked: seq<Ip>)
    requires seeds == ToSet(start)
    ensures Complete(seeds, g, depth, maxQueries, discovered, asked)
  {
    discovered, asked := {}, [];
    var visited, frontier: seq<Ip>, hop := {}, start, 0;
    BeforeFirstHop(start, g);
    while hop < depth
      invariant hop <= depth
      invariant Crawled(hop, visited, frontier, discovered, asked, maxQueries, seeds, g)
    {
      if frontier == [] || |asked| >= maxQueries {
        break;
      }
      var now, next, discovered', asked', more :=
        Hop(visited, frontier, discovered, asked, maxQueries, g, hop, seeds);
      if !more {
        break;
      }
      visited, frontier, discovered, asked, hop := now, next, discovered', asked', hop + 1;
    }
    Finish(hop, visited, frontier, seeds, g, depth, |asked| == maxQueries);
  }

  lemma {:induction false} BeforeFirstHop(start: seq<Ip>, g: Net)
    ensures After(0, {}, start, false, ToSet(start), g)
    ensures Advertised({}, g) == {}
  {
    assert Hosts(ToSet(start), g, 1) == Reach(ToSet(start), g, {});
  }

  lemma {:induction false} Finish(n: nat, visited: set<Ip>, frontier: seq<Ip>, seeds: set<Ip>, g: Net,
                                  depth: nat, spent: bool)
    requires n <= depth && After(n, visited, frontier, spent, seeds, g)
    requires n == depth || spent || ToSet(frontier) <= visited
    ensures visited <= Hosts(seeds, g, depth)
    ensures spent || visited == Hosts(seeds, g, depth)
  {
    HostsGrow(seeds, g, n, depth);
    if !spent && n < depth {
      assert visited + ToSet(frontier) == visited;
      HostsSettle(seeds, g, n, depth);
    }
  }

  function Without(ips: seq<Ip>, self: set<Ip>): (r: seq<Ip>)
    ensures ToSet(r) == Others(ips, self)
  {
    if ips == [] then []
    else
      var rest := Without(ips[1..], self);
      assert forall ip :: ip in ips <==> ip == ips[0] || ip in ips[1..];
      assert forall ip :: ip in rest <==> ip in ToSet(rest);
      if ips[0] in self then rest else [ips[0]] + rest
  }

  // ---- sequences as sets ----

  function ToSet(s: seq<Ip>): set<Ip> {
    set x | x in s
  }

  lemma {:induction false} NoDuplicatesSize(s: seq<Ip>)
    requires NoDuplicates(s)
    ensures |ToSet(s)| == |s|
    decreases |s|
  {
    if s != [] {
      var last := s[|s| - 1];
      NoDuplicatesSize(s[..|s| - 1]);
      assert ToSet(s) == ToSet(s[..|s| - 1]) + {last};
      assert last !in s[..|s| - 1];
    }
  }

  lemma NoDuplicatesConcat(a: seq<Ip>, b: seq<Ip>)
    requires NoDuplicates(a) && NoDuplicates(b) && ToSet(a) !! ToSet(b)
    ensures NoDuplicates(a + b) && ToSet(a + b) == ToSet(a) + ToSet(b)
  {
    forall i, j | 0 <= i < j < |a + b| ensures (a + b)[i] != (a + b)[j] {
      if i < |a| <= j {
        assert (a + b)[i] in ToSet(a) && (a + b)[j] in ToSet(b);
      }
    }
  }
}
