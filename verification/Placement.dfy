/** Where partitions go: leaders and in-sync replicas for new partitions, and the round-robin of
    ordered topics. */
module Placement {
  import opened Metadata
  import opened Wrappers

  datatype Part = Part(leader: NodeId, isr: seq<NodeId>)

  /** Every node in the ISR of an existing partition. */
  function Used(exist: map<int, Part>): (r: set<NodeId>) {
    set p, n | p in exist && n in exist[p].isr :: n
  }

  lemma {:induction false} MembersCount(l: seq<NodeId>)
    requires NoDup(l)
    ensures |Members(l)| == |l|
  {
    if l != [] {
      var t := l[1..];
      MembersCount(t);
      assert Members(l) == {l[0]} + Members(t);
      assert l[0] !in t;
    }
  }

  /** The inner loop of the leader phase: the next node that no partition uses. */
  method NextFree(nodes: seq<NodeId>, at: nat, used: set<NodeId>) returns (found: Option<NodeId>, next: nat)
    requires at <= |nodes|
    ensures at <= next <= |nodes| && (forall i :: at <= i < next - 1 ==> nodes[i] in used)
    ensures found == None ==> next == |nodes| && forall i :: at <= i < next ==> nodes[i] in used
    ensures found.Some? ==> at < next && found.value == nodes[next - 1] && found.value !in used
  {
    next := at;
    while next < |nodes|
      invariant at <= next <= |nodes| && forall i :: at <= i < next ==> nodes[i] in used
    {
      next := next + 1;
      if nodes[next - 1] !in used {
        return Some(nodes[next - 1]), next;
      }
    }
    return None, next;
  }

  /** The leaders chosen for partitions that do not exist yet are new and differ. */
  ghost predicate FreshLeaders(leaders: seq<NodeId>, exist: map<int, Part>) {
    && (forall p :: 0 <= p < |leaders| && p in exist ==> leaders[p] == exist[p].leader)
    && (forall p :: 0 <= p < |leaders| && p !in exist ==> leaders[p] !in Used(exist))
    && (forall p, q :: 0 <= p < q < |leaders| && p !in exist && q !in exist ==> leaders[p] != leaders[q])
  }

  ghost function Chosen(leaders: seq<NodeId>, exist: map<int, Part>): (r: set<NodeId>) {
    set p | 0 <= p < |leaders| && p !in exist :: leaders[p]
  }

  lemma OldLeader(leaders: seq<NodeId>, exist: map<int, Part>)
    requires FreshLeaders(leaders, exist) && |leaders| in exist
    ensures var more := leaders + [exist[|leaders|].leader];
            FreshLeaders(more, exist) && Chosen(more, exist) == Chosen(leaders, exist)
  {
    var more := leaders + [exist[|leaders|].leader];
    assert forall p :: 0 <= p < |leaders| ==> more[p] == leaders[p];
    forall n ensures n in Chosen(more, exist) <==> n in Chosen(leaders, exist) {
      if n in Chosen(more, exist) {
        var p :| 0 <= p < |more| && p !in exist && more[p] == n;
        assert leaders[p] == n;
      }
      if n in Chosen(leaders, exist) {
        var p :| 0 <= p < |leaders| && p !in exist && leaders[p] == n;
        assert more[p] == n;
      }
    }
  }

  lemma NewLeader(leaders: seq<NodeId>, exist: map<int, Part>, n: NodeId)
    requires FreshLeaders(leaders, exist) && |leaders| !in exist
    requires n !in Used(exist) && n !in Chosen(leaders, exist)
    ensures FreshLeaders(leaders + [n], exist) && Chosen(leaders + [n], exist) == Chosen(leaders, exist) + {n}
  {
    var more := leaders + [n];
    assert forall p :: 0 <= p < |leaders| ==> more[p] == leaders[p];
    assert forall p :: 0 <= p < |leaders| && p !in exist ==> leaders[p] in Chosen(leaders, exist);
    assert more[|leaders|] == n;
    forall x ensures x in Chosen(more, exist) <==> x in Chosen(leaders, exist) + {n} {
      if x in Chosen(more, exist) {
        var p :| 0 <= p < |more| && p !in exist && more[p] == x;
        assert p < |leaders| ==> leaders[p] == x;
      }
      if x in Chosen(leaders, exist) {
        var p :| 0 <= p < |leaders| && p !in exist && leaders[p] == x;
        assert more[p] == x;
      }
    }
  }

  /** The leader phase of allocTopicLeaderAndISR. */
  method ChooseLeaders(nodes: seq<NodeId>, partitionNum: nat, exist: map<int, Part>, used: set<NodeId>)
    returns (leaders: seq<NodeId>, ok: bool, taken: set<NodeId>)
    requires NoDup(nodes) && used == Used(exist)
    ensures ok ==> |leaders| == partitionNum && FreshLeaders(leaders, exist) && taken == used + Chosen(leaders, exist)
    ensures exist == map[] && partitionNum <= |nodes| ==> ok
  {
    leaders, taken := [], used;
    var at := 0;
    while |leaders| < partitionNum
      invariant at <= |nodes| && |leaders| <= partitionNum && FreshLeaders(leaders, exist)
      invariant taken == used + Chosen(leaders, exist)
      invariant exist == map[] ==> at == |leaders| && taken == Members(nodes[..at])
    {
      var p := |leaders|;
      if p in exist {
        OldLeader(leaders, exist);
        leaders := leaders + [exist[p].leader];
      } else {
        var found, next := NextFree(nodes, at, taken);
        if exist == map[] && at < |nodes| {
          FirstIsFree(nodes, at, taken);
          assert next == at + 1 && nodes[..next] == nodes[..at] + [nodes[at]];
        }
        if found == None {
          return leaders, false, taken;
        }
        NewLeader(leaders, exist, found.value);
        at := next;
        leaders := leaders + [found.value];
        taken := taken + {found.value};
      }
    }
    ok := true;
  }

  lemma FirstIsFree(nodes: seq<NodeId>, at: nat, taken: set<NodeId>)
    requires NoDup(nodes) && at < |nodes| && taken == Members(nodes[..at])
    ensures nodes[at] !in taken
  {}

  /** A replica set behind its leader, of nodes that were not taken before. */
  ghost predicate Filled(isr: seq<NodeId>, leader: NodeId, taken: set<NodeId>, taken': set<NodeId>) {
    && 1 <= |isr| && isr[0] == leader && NoDup(isr) && (Members(isr) - {leader}) !! taken
    && taken' == taken + Members(isr) && |taken'| == |taken| + |isr| - 1
  }

  lemma FilledMore(isr: seq<NodeId>, leader: NodeId, taken: set<NodeId>, taken': set<NodeId>, n: NodeId)
    requires Filled(isr, leader, taken, taken') && leader in taken && n !in taken'
    ensures Filled(isr + [n], leader, taken, taken' + {n})
  {
    MembersSnoc(isr, n);
    assert forall i :: 0 <= i < |isr| ==> isr[i] in Members(isr);
  }

  /** The inner loop of the slave phase: `leader` and the next free nodes, `replica` in all. */
  method FillReplicas(nodes: seq<NodeId>, at: nat, leader: NodeId, replica: nat, taken: set<NodeId>)
    returns (isr: seq<NodeId>, next: nat, taken': set<NodeId>, ok: bool)
    requires at <= |nodes| && replica >= 1 && leader in taken && Members(nodes[..at]) <= taken
    ensures at <= next <= |nodes| && Members(nodes[..next]) <= taken' && |isr| <= replica
    ensures Filled(isr, leader, taken, taken')
    ensures ok <==> |isr| == replica
    ensures !ok ==> next == |nodes|
  {
    isr, next, taken' := [leader], at, taken;
    assert taken + Members(isr) == taken;
    while |isr| < replica
      invariant at <= next <= |nodes| && Members(nodes[..next]) <= taken' && |isr| <= replica
      invariant Filled(isr, leader, taken, taken')
    {
      var found, n := NextFree(nodes, next, taken');
      if found == None {
        PrefixTaken(nodes, next, n, taken');
        next := n;
        return isr, next, taken', false;
      }
      PrefixTaken(nodes, next, n - 1, taken');
      assert nodes[..n] == nodes[..n - 1] + [found.value];
      FilledMore(isr, leader, taken, taken', found.value);
      next, isr, taken' := n, isr + [found.value], taken' + {found.value};
    }
    ok := true;
  }

  lemma PrefixTaken(nodes: seq<NodeId>, a: nat, b: nat, taken: set<NodeId>)
    requires a <= b <= |nodes| && Members(nodes[..a]) <= taken && forall i :: a <= i < b ==> nodes[i] in taken
    ensures Members(nodes[..b]) <= taken
  {
    forall n | n in nodes[..b] ensures n in taken {
      var i :| 0 <= i < b && nodes[i] == n;
      assert i < a ==> nodes[i] in nodes[..a];
    }
  }

  /** New in-sync replica sets: of the right size, without repetition, and sharing no node with
      each other or with existing partitions. */
  ghost predicate FreshReplicas(isrs: seq<seq<NodeId>>, leaders: seq<NodeId>, replica: nat, exist: map<int, Part>)
    requires |isrs| <= |leaders|
  {
    && (forall p :: 0 <= p < |isrs| && p !in exist ==>
          |isrs[p]| == replica >= 1 && isrs[p][0] == leaders[p] && NoDup(isrs[p]) && Members(isrs[p]) !! Used(exist))
    && (forall p, q :: 0 <= p < q < |isrs| && p !in exist && q !in exist ==> Members(isrs[p]) !! Members(isrs[q]))
    && (forall p :: 0 <= p < |isrs| && p in exist ==> isrs[p] == if replica == 1 then [leaders[p]] else exist[p].isr)
  }

  /** Every node that may not be chosen any more. */
  ghost predicate Excludes(taken: set<NodeId>, isrs: seq<seq<NodeId>>, leaders: seq<NodeId>, exist: map<int, Part>)
    requires |isrs| <= |leaders|
  {
    && Used(exist) <= taken && Chosen(leaders, exist) <= taken
    && (forall p :: 0 <= p < |isrs| && p !in exist ==> Members(isrs[p]) <= taken)
    && (forall p, n :: 0 <= p < |isrs| && p !in exist && n in isrs[p] && n in Chosen(leaders, exist) ==>
          n == leaders[p])
  }

  /** One more replica set keeps all of that. */
  lemma OneMore(isrs: seq<seq<NodeId>>, leaders: seq<NodeId>, replica: nat, exist: map<int, Part>,
                taken: set<NodeId>, isr: seq<NodeId>, taken': set<NodeId>)
    requires |isrs| < |leaders| && |isrs| !in exist && replica >= 1
    requires FreshLeaders(leaders, exist) && FreshReplicas(isrs, leaders, replica, exist)
    requires Excludes(taken, isrs, leaders, exist)
    requires |isr| == replica && isr[0] == leaders[|isrs|] && NoDup(isr) && (Members(isr) - {isr[0]}) !! taken
    requires taken' == taken + Members(isr)
    ensures FreshReplicas(isrs + [isr], leaders, replica, exist) && Excludes(taken', isrs + [isr], leaders, exist)
  {
    var k, more := |isrs|, isrs + [isr];
    forall p | 0 <= p < k && p !in exist ensures Members(isrs[p]) !! Members(isr) {
      forall n | n in isrs[p] ensures n !in isr {
        assert n in Members(isrs[p]) && n in taken;
        assert leaders[k] in Chosen(leaders, exist);
      }
    }
    forall n | n in isr ensures n !in Used(exist) {
      assert n in Members(isr);
    }
    forall n | n in isr && n in Chosen(leaders, exist) ensures n == leaders[k] {
      assert n in Members(isr);
    }
  }

  /** An existing partition keeps its replicas. */
  lemma OneExisting(isrs: seq<seq<NodeId>>, leaders: seq<NodeId>, replica: nat, exist: map<int, Part>,
                    taken: set<NodeId>)
    requires |isrs| < |leaders| && |isrs| in exist
    requires FreshReplicas(isrs, leaders, replica, exist) && Excludes(taken, isrs, leaders, exist)
    ensures var more := isrs + [if replica == 1 then [leaders[|isrs|]] else exist[|isrs|].isr];
            FreshReplicas(more, leaders, replica, exist) && Excludes(taken, more, leaders, exist)
  {}

  /** The slave phase of allocTopicLeaderAndISR. */
  method ChooseReplicas(nodes: seq<NodeId>, leaders: seq<NodeId>, replica: nat, exist: map<int, Part>,
                        taken0: set<NodeId>)
    returns (isrs: seq<seq<NodeId>>, ok: bool)
    requires NoDup(nodes) && replica >= 1 && FreshLeaders(leaders, exist)
    requires taken0 == Used(exist) + Chosen(leaders, exist)
    ensures ok ==> |isrs| == |leaders| && FreshReplicas(isrs, leaders, replica, exist)
    ensures exist == map[] && replica * |leaders| <= |nodes| ==> ok
  {
    isrs := [];
    var taken, at := taken0, 0;
    if exist == map[] {
      ChosenCount(leaders, exist);
    }
    while |isrs| < |leaders|
      invariant at <= |nodes| && |isrs| <= |leaders| && Members(nodes[..at]) <= taken
      invariant FreshReplicas(isrs, leaders, replica, exist) && Excludes(taken, isrs, leaders, exist)
      invariant exist == map[] ==> |taken| == |leaders| + Times(|isrs|, replica - 1)
    {
      var p := |isrs|;
      if p in exist {
        OneExisting(isrs, leaders, replica, exist, taken);
        isrs := isrs + [if replica == 1 then [leaders[p]] else exist[p].isr];
      } else {
        assert leaders[p] in Chosen(leaders, exist);
        var isr, next, taken', filled := FillReplicas(nodes, at, leaders[p], replica, taken);
        if !filled {
          if exist == map[] {
            RunsOut(nodes, taken', |leaders|, p, replica, |isr|);
          }
          return isrs, false;
        }
        OneMore(isrs, leaders, replica, exist, taken, isr, taken');
        assert exist == map[] ==> |taken'| == |leaders| + Times(p + 1, replica - 1);
        isrs, at, taken := isrs + [isr], next, taken';
      }
    }
    ok := true;
  }

  lemma {:induction false} ChosenCount(leaders: seq<NodeId>, exist: map<int, Part>)
    requires exist == map[] && FreshLeaders(leaders, exist)
    ensures |Used(exist) + Chosen(leaders, exist)| == |leaders|
  {
    assert Used(exist) == {};
    assert Chosen(leaders, exist) == Members(leaders);
    MembersCount(leaders);
    assert Used(exist) + Chosen(leaders, exist) == Members(leaders);
  }

  /** Running out of nodes means there were fewer than replica * partitions. */
  lemma RunsOut(nodes: seq<NodeId>, taken: set<NodeId>, partitions: nat, p: nat, replica: nat, got: nat)
    requires NoDup(nodes) && Members(nodes[..|nodes|]) <= taken && p < partitions && 1 <= got < replica
    requires |taken| == partitions + Times(p, replica - 1) + got - 1
    ensures |nodes| < replica * partitions
  {
    MembersCount(nodes);
    assert nodes[..|nodes|] == nodes;
    SubsetCount(Members(nodes), taken);
    TooMany(partitions, p, replica, got);
  }

  lemma TooMany(partitions: nat, p: nat, replica: nat, got: nat)
    requires p < partitions && 1 <= got < replica
    ensures partitions + Times(p, replica - 1) + got - 1 < replica * partitions
  {
    TimesMonotone(p + 1, partitions, replica - 1);
    TimesIsProduct(partitions, replica - 1);
    assert partitions * (replica - 1) == replica * partitions - partitions;
  }

  lemma {:induction false} TimesMonotone(j: nat, k: nat, n: nat)
    requires j <= k
    ensures Times(j, n) <= Times(k, n)
    decreases k
  {
    if j < k {
      TimesMonotone(j, k - 1, n);
    }
  }

  /** k times n, by addition. */
  function Times(k: nat, n: nat): (r: nat) { if k == 0 then 0 else Times(k - 1, n) + n }

  lemma {:induction false} TimesIsProduct(k: nat, n: nat)
    ensures Times(k, n) == k * n
  {
    if k > 0 {
      TimesIsProduct(k - 1, n);
    }
  }

  lemma {:induction false} SubsetCount(a: set<NodeId>, b: set<NodeId>)
    requires a <= b
    ensures |a| <= |b|
  {
    assert b == a + (b - a);
  }

  /** allocTopicLeaderAndISR. The nodes come sorted by leader load and by slave load; any two
      orders of the same nodes will do. */
  method Allocate(byLeader: seq<NodeId>, bySlave: seq<NodeId>, replica: nat, partitionNum: nat, exist: map<int, Part>)
    returns (leaders: seq<NodeId>, isrs: seq<seq<NodeId>>, ok: bool)
    requires NoDup(byLeader) && NoDup(bySlave) && Members(byLeader) == Members(bySlave) && replica >= 1
    ensures ok ==> |leaders| == |isrs| == partitionNum && FreshLeaders(leaders, exist)
    ensures ok ==> FreshReplicas(isrs, leaders, replica, exist)
    ensures exist == map[] && 1 <= partitionNum && replica * partitionNum <= |byLeader| ==> ok
    ensures |byLeader| < replica * partitionNum ==> !ok
  {
    MembersCount(byLeader);
    MembersCount(bySlave);
    isrs := [];
    assert 1 <= partitionNum ==> replica <= replica * partitionNum;
    assert partitionNum <= replica * partitionNum;
    if |byLeader| < replica || |byLeader| < partitionNum || |byLeader| < replica * partitionNum {
      return [], [], false;
    }
    var taken;
    leaders, ok, taken := ChooseLeaders(byLeader, partitionNum, exist, Used(exist));
    if ok {
      isrs, ok := ChooseReplicas(bySlave, leaders, replica, exist, taken);
    }
  }

  // ---------------------------------------------------------------- conflicts between partitions

  /** checkTopicNodeConflict: an ISR is accepted exactly when it repeats no node and shares none
      with the other partitions. */
  method HasNoConflict(isr: seq<NodeId>, others: map<int, Part>) returns (ok: bool)
    ensures ok <==> NoDup(isr) && Members(isr) !! Used(others)
  {
    var seen, i := Used(others), 0;
    while i < |isr|
      invariant 0 <= i <= |isr| && seen == Used(others) + Members(isr[..i])
      invariant NoDup(isr[..i]) && Members(isr[..i]) !! Used(others)
    {
      assert isr[i] in Members(isr);
      if isr[i] in seen {
        return false;
      }
      assert isr[..i + 1] == isr[..i] + [isr[i]];
      MembersSnoc(isr[..i], isr[i]);
      seen, i := seen + {isr[i]}, i + 1;
    }
    assert isr[..i] == isr;
    ok := true;
  }

  // ---------------------------------------------------------------- ordered topics

  /** How many of the first `parts` partitions have, at place j, the node number k of n. */
  function Count(parts: nat, n: nat, j: nat, k: nat): (c: nat)
    requires n > 0
  {
    if parts == 0 then 0 else Count(parts - 1, n, j, k) + if (parts - 1 + j) % n == k then 1 else 0
  }

  /** Every round of n partitions uses each node once at each place. */
  lemma {:induction false} CountRound(parts: nat, n: nat, j: nat, k: nat)
    requires k < n && parts >= n
    ensures Count(parts, n, j, k) == Count(parts - n, n, j, k) + 1
    decreases parts
  {
    WindowCount(parts - n, n, j, k, n);
  }

  /** The partitions from `from` on, `len` of them, meet residue k as often as it occurs there. */
  lemma {:induction false} WindowCount(from: nat, n: nat, j: nat, k: nat, len: nat)
    requires k < n && len <= n
    ensures var first := (k + n - (from + j) % n) % n;
            Count(from + len, n, j, k) == Count(from, n, j, k) + if first < len then 1 else 0
    decreases len
  {
    if len > 0 {
      WindowCount(from, n, j, k, len - 1);
      ResidueAt(from + j, n, k, len - 1);
    }
  }

  lemma ResidueAt(a: nat, n: nat, k: nat, d: nat)
    requires k < n && d < n
    ensures (a + d) % n == k <==> d == (k + n - a % n) % n
  {
    var r := a % n;
    var q := a / n;
    assert a == q * n + r;
    if r + d < n {
      ModShift(q, n, r + d);
    } else {
      ModShift(q + 1, n, r + d - n);
      assert (q + 1) * n + (r + d - n) == a + d;
    }
    if k >= r {
      ModShift(1, n, k - r);
    } else {
      ModShift(0, n, k + n - r);
    }
  }

  lemma ModShift(q: int, n: nat, r: nat)
    requires r < n
    ensures (q * n + r) % n == r
  {
    var x := q * n + r;
    assert x == n * (x / n) + x % n;
    DivUnique(q, x / n, n, r, x % n);
  }

  lemma DivUnique(q: int, p: int, n: nat, r: int, s: int)
    requires q * n + r == p * n + s && 0 <= r < n && 0 <= s < n
    ensures q == p && r == s
  {
    var d := q - p;
    assert d * n == q * n - p * n;
    Multiple(d, n);
  }

  lemma Multiple(d: int, n: nat)
    ensures d >= 1 ==> d * n >= n
    ensures d <= -1 ==> d * n <= 0 - n
  {
    if d >= 1 {
      NotNegative(d - 1, n);
      assert d * n == (d - 1) * n + n;
    } else if d <= -1 {
      NotNegative(-d - 1, n);
      assert d * n == 0 - ((-d - 1) * n + n);
    }
  }

  lemma NotNegative(a: nat, b: nat)
    ensures a * b >= 0
  {}

  /** At every place, two nodes serve almost equally many partitions. */
  lemma {:induction false} CountBalanced(parts: nat, n: nat, j: nat, k: nat, l: nat)
    requires k < n && l < n
    ensures Count(parts, n, j, k) <= Count(parts, n, j, l) + 1
    decreases parts
  {
    if parts < n {
      WindowCount(0, n, j, k, parts);
      WindowCount(0, n, j, l, parts);
    } else {
      CountRound(parts, n, j, k);
      CountRound(parts, n, j, l);
      CountBalanced(parts - n, n, j, k, l);
    }
  }

  /** Place j of partition i holds node (i + j) modulo the number of nodes. */
  ghost predicate IsRoundRobin(parts: seq<seq<NodeId>>, names: seq<NodeId>, replica: nat) {
    && replica <= |names|
    && forall i :: 0 <= i < |parts| ==>
         |parts[i]| == replica && forall j :: 0 <= j < replica ==> parts[i][j] == names[(i + j) % |names|]
  }

  /** getRebalancedOrderedTopicPartitionsFromNameList, on names in any order. */
  method RoundRobin(names: seq<NodeId>, partitionNum: nat, replica: nat) returns (parts: seq<seq<NodeId>>, ok: bool)
    ensures ok <==> replica <= |names|
    ensures ok ==> |parts| == partitionNum && IsRoundRobin(parts, names, replica)
  {
    parts := [];
    if |names| < replica {
      return parts, false;
    }
    var selectIndex := 0;
    while |parts| < partitionNum
      invariant |parts| == selectIndex <= partitionNum && IsRoundRobin(parts, names, replica)
    {
      var nlist := [];
      while |nlist| < replica
        invariant |nlist| <= replica
        invariant forall j :: 0 <= j < |nlist| ==> nlist[j] == names[(selectIndex + j) % |names|]
      {
        nlist := nlist + [names[(selectIndex + |nlist|) % |names|]];
      }
      parts := parts + [nlist];
      selectIndex := selectIndex + 1;
    }
    ok := true;
  }

  /** How many partitions hold x at place j; place 0 is the leader's. */
  function HeldAt(parts: seq<seq<NodeId>>, j: nat, x: NodeId): (c: nat) {
    if parts == [] then 0
    else
      var last := parts[|parts| - 1];
      HeldAt(parts[..|parts| - 1], j, x) + if j < |last| && last[j] == x then 1 else 0
  }

  /** How many copies x holds in all. */
  function Held(parts: seq<seq<NodeId>>, replica: nat, x: NodeId): (c: nat) {
    if replica == 0 then 0 else Held(parts, replica - 1, x) + HeldAt(parts, replica - 1, x)
  }

  lemma {:induction false} HeldIsCount(parts: seq<seq<NodeId>>, names: seq<NodeId>, replica: nat, j: nat, k: nat)
    requires NoDup(names) && IsRoundRobin(parts, names, replica) && j < replica && k < |names|
    ensures HeldAt(parts, j, names[k]) == Count(|parts|, |names|, j, k)
  {
    if parts != [] {
      var i := |parts| - 1;
      HeldIsCount(parts[..i], names, replica, j, k);
      var r := (i + j) % |names|;
      assert names[r] == names[k] <==> r == k;
    }
  }

  /** The nodes of a partition differ. */
  lemma PartitionDistinct(parts: seq<seq<NodeId>>, names: seq<NodeId>, replica: nat, i: nat)
    requires NoDup(names) && IsRoundRobin(parts, names, replica) && i < |parts|
    ensures NoDup(parts[i])
  {
    forall a, b | 0 <= a < b < replica ensures parts[i][a] != parts[i][b] {
      ResidueAt(i + a, |names|, (i + a) % |names|, b - a);
      ModShift(1, |names|, 0);
    }
  }

  /** Leader counts differ by at most one, and copies by at most the number of replicas. */
  lemma {:induction false} OrderedBalance(parts: seq<seq<NodeId>>, names: seq<NodeId>, replica: nat, upTo: nat,
                                          k: nat, l: nat)
    requires NoDup(names) && IsRoundRobin(parts, names, replica) && upTo <= replica
    requires k < |names| && l < |names|
    ensures replica > 0 ==> HeldAt(parts, 0, names[k]) <= HeldAt(parts, 0, names[l]) + 1
    ensures Held(parts, upTo, names[k]) <= Held(parts, upTo, names[l]) + upTo
    decreases upTo
  {
    if replica > 0 {
      HeldIsCount(parts, names, replica, 0, k);
      HeldIsCount(parts, names, replica, 0, l);
      CountBalanced(|parts|, |names|, 0, k, l);
    }
    if upTo > 0 {
      OrderedBalance(parts, names, replica, upTo - 1, k, l);
      HeldIsCount(parts, names, replica, upTo - 1, k);
      HeldIsCount(parts, names, replica, upTo - 1, l);
      CountBalanced(|parts|, |names|, upTo - 1, k, l);
    }
  }
}
