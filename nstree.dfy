/**
 * The namespace tree of the connection registry, as a map from normalised paths to
 * nodes. Each node holds the connections subscribed exactly there and the last argument
 * list sent exactly there. Nodes are created on demand (with every ancestor) and never
 * removed; the root always exists.
 */
module NsTree {
  import opened Results
  import opened Messages
  import opened Address

  type ConnId = nat

  datatype Node = Node(connections: seq<ConnId>, lastArgs: Option<seq<Arg>>)

  const EmptyNode := Node([], None)

  type Tree = map<Path, Node>

  /** The tree of a freshly started registry: the root alone. */
  const Initial: Tree := map[[] := EmptyNode]

  predicate NoDups(s: seq<ConnId>) {
    forall i, j :: 0 <= i < j < |s| ==> s[i] != s[j]
  }

  /** The root exists and no node lists a connection twice. */
  predicate Valid(t: Tree) {
    && [] in t
    && (forall p :: p in t ==> NoDups(t[p].connections))
  }

  /** Every node's ancestors exist. */
  ghost predicate PrefixClosed(t: Tree) {
    forall p, i :: p in t && 0 <= i <= |p| ==> p[..i] in t
  }

  /** `get(address)` creating the node and its missing ancestors, each empty. */
  function Resolve(t: Tree, p: Path): (r: Tree)
    ensures forall q :: q in t ==> q in r && r[q] == t[q]
    ensures forall i :: 0 <= i <= |p| ==> p[..i] in r
    ensures forall q :: q in r && q !in t ==> r[q] == EmptyNode && |q| <= |p| && q == p[..|q|]
    decreases |p|
  {
    var up := if p == [] then t else Resolve(t, p[..|p| - 1]);
    assert forall i :: 0 <= i < |p| ==> p[..|p| - 1][..i] == p[..i];
    assert p[..|p|] == p;
    if p in up then up else up[p := EmptyNode]
  }

  lemma ResolveValid(t: Tree, p: Path)
    requires Valid(t)
    ensures Valid(Resolve(t, p))
  {
  }

  /** Creating a node creates its ancestors, so the tree stays prefix-closed. */
  lemma ResolvePrefixClosed(t: Tree, p: Path)
    requires PrefixClosed(t)
    ensures PrefixClosed(Resolve(t, p))
  {
    var r := Resolve(t, p);
    forall q, i | q in r && 0 <= i <= |q| ensures q[..i] in r {
      if q !in t {
        assert q == p[..|q|];
        assert q[..i] == p[..i];
      }
    }
  }

  /** The connections subscribed exactly at `p`; none where there is no node. */
  function SubsAt(t: Tree, p: Path): (r: seq<ConnId>)
    ensures p !in t ==> r == []
  {
    if p in t then t[p].connections else []
  }

  /** `resend`'s answer: the last argument list sent exactly to `p`, or `[]`. */
  function Retained(t: Tree, p: Path): (r: seq<Arg>)
    ensures p !in t ==> r == []
  {
    if p in t && t[p].lastArgs.Some? then t[p].lastArgs.value else []
  }

  /** Replacing a node by one without duplicates keeps a valid tree valid. */
  lemma UpdateValid(u: Tree, p: Path, n: Node)
    requires Valid(u) && p in u && NoDups(n.connections)
    ensures Valid(u[p := n])
  {
    var r := u[p := n];
    assert r.Keys == u.Keys;
    forall q | q in r ensures NoDups(r[q].connections) {
      if q != p { assert r[q] == u[q]; }
    }
  }

  /** The node's list with `c` added at the end, unless it is already there. */
  function AddConnection(s: seq<ConnId>, c: ConnId): (r: seq<ConnId>)
    requires NoDups(s)
    ensures NoDups(r) && c in r
    ensures forall x :: x in r <==> x == c || x in s
    ensures c in s ==> r == s
    ensures c !in s ==> r == s + [c]
  {
    if c in s then s else s + [c]
  }

  /** Subscribes connection `c` at `p`, creating the node if needed. */
  function Subscribe(t: Tree, p: Path, c: ConnId): (r: Tree)
    requires Valid(t)
    ensures Valid(r) && p in r
  {
    ResolveValid(t, p);
    var u := Resolve(t, p);
    assert p == p[..|p|];
    var n := u[p];
    UpdateValid(u, p, n.(connections := AddConnection(n.connections, c)));
    u[p := n.(connections := AddConnection(n.connections, c))]
  }

  /**
   * After a subscribe, `c` is listed at `p` once, the other nodes keep their subscribers,
   * no retained message changes, and subscribing twice changes nothing.
   */
  lemma SubscribeEffect(t: Tree, p: Path, c: ConnId)
    requires Valid(t)
    ensures var r := Subscribe(t, p, c);
      && SubsAt(r, p) == AddConnection(SubsAt(t, p), c)
      && (forall x :: x in SubsAt(r, p) <==> x == c || x in SubsAt(t, p))
      && multiset(SubsAt(r, p))[c] == 1
      && (forall q :: q != p ==> SubsAt(r, q) == SubsAt(t, q))
      && (forall q :: Retained(r, q) == Retained(t, q))
      && (c in SubsAt(t, p) ==> SubsAt(r, p) == SubsAt(t, p))
  {
    var u := Resolve(t, p);
    assert p == p[..|p|];
    assert p in u;
    var n := u[p];
    assert n.connections == SubsAt(t, p);
    var r := u[p := n.(connections := AddConnection(n.connections, c))];
    assert Subscribe(t, p, c) == r;
    assert SubsAt(r, p) == AddConnection(SubsAt(t, p), c);
    NoDupsCount(SubsAt(r, p), c);
    forall q | q != p ensures SubsAt(r, q) == SubsAt(t, q) && Retained(r, q) == Retained(t, q) {
      assert SubsAt(r, q) == SubsAt(u, q) && Retained(r, q) == Retained(u, q);
    }
    assert Retained(r, p) == Retained(t, p);
  }

  /** Stores `args` as the last message of `p` (full replace), creating the node if needed. */
  function Retain(t: Tree, p: Path, args: seq<Arg>): (r: Tree)
    requires Valid(t)
    ensures Valid(r) && p in r
    ensures Retained(r, p) == args
    ensures forall q :: q != p ==> Retained(r, q) == Retained(t, q)
    ensures forall q :: SubsAt(r, q) == SubsAt(t, q)
  {
    ResolveValid(t, p);
    var u := Resolve(t, p);
    assert p == p[..|p|];
    u[p := u[p].(lastArgs := Some(args))]
  }

  /** The subscribers of the first `n` levels on the way to `p`, root first. */
  function Upto(t: Tree, p: Path, n: nat): seq<ConnId>
    requires n <= |p| + 1
  {
    if n == 0 then [] else Upto(t, p, n - 1) + SubsAt(t, p[..n - 1])
  }

  /**
   * The connections a send to `p` is delivered to: those subscribed at every level from
   * the root down to `p` itself, level by level.
   */
  function DeliverySet(t: Tree, p: Path): (r: seq<ConnId>)
    ensures forall c :: c in SubsAt(t, []) ==> c in r
    ensures forall c :: c in SubsAt(t, p) ==> c in r
  {
    assert p[..|p|] == p && p[..0] == [];
    assert forall c :: c in SubsAt(t, []) ==> c in Upto(t, p, |p| + 1) by {
      forall c | c in SubsAt(t, []) {
        UptoMember(t, p, |p| + 1, c);
      }
    }
    Upto(t, p, |p| + 1)
  }

  lemma {:induction false} UptoMember(t: Tree, p: Path, n: nat, c: ConnId)
    requires n <= |p| + 1
    ensures c in Upto(t, p, n) <==> exists i :: 0 <= i < n && c in SubsAt(t, p[..i])
  {
    if n > 0 {
      UptoMember(t, p, n - 1, c);
    }
  }

  /**
   * A connection receives a send to `p` exactly when it is subscribed at some ancestor of
   * `p`, the root and `p` included; subscribers elsewhere never receive it.
   */
  lemma DeliveryMember(t: Tree, p: Path, c: ConnId)
    ensures c in DeliverySet(t, p) <==> exists i :: 0 <= i <= |p| && c in SubsAt(t, p[..i])
  {
    UptoMember(t, p, |p| + 1, c);
  }

  lemma {:induction false} NoDupsCount(s: seq<ConnId>, c: ConnId)
    requires NoDups(s)
    ensures multiset(s)[c] == if c in s then 1 else 0
  {
    if s != [] {
      assert s == [s[0]] + s[1..];
      assert NoDups(s[1..]) by {
        forall i, j | 0 <= i < j < |s[1..]| ensures s[1..][i] != s[1..][j] {
          assert s[1..][i] == s[i + 1] && s[1..][j] == s[j + 1];
        }
      }
      NoDupsCount(s[1..], c);
      if s[0] == c {
        assert c !in s[1..] by {
          forall k | 0 <= k < |s[1..]| ensures s[1..][k] != c { assert s[1..][k] == s[k + 1]; }
        }
      }
    }
  }

  /** The levels below `n` on the way to `p` at which `c` is subscribed. */
  function LevelsUpto(t: Tree, p: Path, n: nat, c: ConnId): set<nat>
    requires n <= |p| + 1
  {
    set i: nat | i < n && c in SubsAt(t, p[..i])
  }

  lemma {:induction false} UptoCount(t: Tree, p: Path, n: nat, c: ConnId)
    requires Valid(t) && n <= |p| + 1
    ensures multiset(Upto(t, p, n))[c] == |LevelsUpto(t, p, n, c)|
  {
    if n == 0 {
      assert LevelsUpto(t, p, n, c) == {};
    } else {
      UptoCount(t, p, n - 1, c);
      var q := p[..n - 1];
      if q in t {
        NoDupsCount(t[q].connections, c);
      }
      var prev := LevelsUpto(t, p, n - 1, c);
      if c in SubsAt(t, q) {
        assert LevelsUpto(t, p, n, c) == prev + {n - 1};
        assert n - 1 !in prev;
      } else {
        assert LevelsUpto(t, p, n, c) == prev;
      }
    }
  }

  /**
   * Duplicates are not removed: a connection receives a send to `p` once per level on the
   * way to `p` at which it is subscribed.
   */
  lemma DeliveryCount(t: Tree, p: Path, c: ConnId)
    requires Valid(t)
    ensures multiset(DeliverySet(t, p))[c] == |LevelsUpto(t, p, |p| + 1, c)|
  {
    UptoCount(t, p, |p| + 1, c);
  }

  /** Storing a message never changes who receives sends. */
  lemma RetainKeepsDelivery(t: Tree, p: Path, args: seq<Arg>, q: Path)
    requires Valid(t)
    ensures DeliverySet(Retain(t, p, args), q) == DeliverySet(t, q)
  {
    var r := Retain(t, p, args);
    UptoSame(t, r, q, |q| + 1);
  }

  lemma {:induction false} UptoSame(t: Tree, r: Tree, p: Path, n: nat)
    requires n <= |p| + 1
    requires forall q :: SubsAt(r, q) == SubsAt(t, q)
    ensures Upto(r, p, n) == Upto(t, p, n)
  {
    if n > 0 {
      UptoSame(t, r, p, n - 1);
    }
  }

  /** A tree nobody is subscribed in. */
  predicate NoSubscribers(t: Tree) {
    forall q :: q in t ==> t[q].connections == []
  }

  /** The initial tree holds only the root, with nobody subscribed and nothing retained. */
  lemma InitialEmpty()
    ensures Valid(Initial) && NoSubscribers(Initial)
    ensures forall q :: Retained(Initial, q) == [] && SubsAt(Initial, q) == []
  {
  }

  lemma {:induction false} UptoEmpty(t: Tree, p: Path, n: nat)
    requires NoSubscribers(t) && n <= |p| + 1
    ensures Upto(t, p, n) == []
  {
    if n > 0 {
      UptoEmpty(t, p, n - 1);
      assert SubsAt(t, p[..n - 1]) == [];
    }
  }

  /** A connection subscribed nowhere in the tree is not among the recipients of any send. */
  lemma UnsubscribedNotDelivered(t: Tree, p: Path, c: ConnId)
    requires forall q :: c !in SubsAt(t, q)
    ensures c !in DeliverySet(t, p)
  {
    DeliveryMember(t, p, c);
  }

  /** Sends to a tree nobody is subscribed in reach nobody. */
  lemma NoSubscribersNoDelivery(t: Tree, p: Path)
    requires NoSubscribers(t)
    ensures DeliverySet(t, p) == []
  {
    UptoEmpty(t, p, |p| + 1);
  }

  lemma RetainNoSubscribers(t: Tree, p: Path, args: seq<Arg>)
    requires Valid(t) && NoSubscribers(t)
    ensures NoSubscribers(Retain(t, p, args))
  {
    var r := Retain(t, p, args);
    forall q | q in r ensures r[q].connections == [] {
      assert SubsAt(r, q) == SubsAt(t, q);
    }
  }
}
