/**
 * The connection registry: the set of open connections, the namespace tree, and the
 * system messages `subscribe` and `resend` as a connection's `onSysMessage` handles them.
 * What the registry hands to a connection's transport is recorded, in order, in `sent`.
 */
module Connections {
  import opened Results
  import opened Messages
  import opened Address
  import opened NsTree

  /** Address of the acknowledgement sent back for each subscribe. */
  const SubscribedAddress := "/sys/subscribed"

  /** One message handed to the transport of connection `to`. */
  datatype Delivery = Delivery(to: ConnId, msg: Message)

  /** The same message handed to each of `ids`, in order. */
  function Fanout(ids: seq<ConnId>, m: Message): (r: seq<Delivery>)
    ensures |r| == |ids|
    ensures forall i :: 0 <= i < |ids| ==> r[i] == Delivery(ids[i], m)
  {
    seq(|ids|, i requires 0 <= i < |ids| => Delivery(ids[i], m))
  }

  lemma FanoutAppend(a: seq<ConnId>, b: seq<ConnId>, m: Message)
    ensures Fanout(a + b, m) == Fanout(a, m) + Fanout(b, m)
  {
  }

  class Registry {
    var nsTree: Tree
    var connections: set<ConnId>
    var sent: seq<Delivery>

    ghost predicate Valid()
      reads this
    {
      NsTree.Valid(nsTree)
    }

    constructor ()
      ensures Valid()
      ensures nsTree == Initial && connections == {} && sent == []
    {
      nsTree := Initial;
      connections := {};
      sent := [];
    }

    /** `connections.open`: registers `c`; it is subscribed nowhere until it asks. */
    method Open(c: ConnId)
      modifies this
      ensures connections == old(connections) + {c}
      ensures nsTree == old(nsTree) && sent == old(sent)
    {
      connections := connections + {c};
    }

    /**
     * A `subscribe` system message from `c`: `c` is registered at the normalised node of
     * `address`, and exactly one acknowledgement goes back to `c`, carrying `address` as
     * it was written.
     */
    method Subscribe(c: ConnId, address: string)
      requires Valid()
      modifies this
      ensures Valid()
      ensures nsTree == NsTree.Subscribe(old(nsTree), Segments(address), c)
      ensures sent == old(sent) + [Delivery(c, Message(SubscribedAddress, [Str(address)]))]
      ensures connections == old(connections)
    {
      nsTree := NsTree.Subscribe(nsTree, Segments(address), c);
      sent := sent + [Delivery(c, Message(SubscribedAddress, [Str(address)]))];
    }

    /**
     * A `resend` system message from `c`: the last argument list sent exactly to
     * `address` (or `[]`) goes back to `c` alone, at `address` itself. The tree is not
     * changed, not even by creating the node.
     */
    method Resend(c: ConnId, address: string)
      requires Valid()
      modifies this
      ensures Valid()
      ensures nsTree == old(nsTree) && connections == old(connections)
      ensures sent == old(sent) + [Delivery(c, Message(address, Retained(nsTree, Segments(address))))]
    {
      sent := sent + [Delivery(c, Message(address, Retained(nsTree, Segments(address))))];
    }

    /**
     * `connections.send`: stores `args` as the last message of `address`, then hands
     * `(address, args)` to every connection subscribed at each level from the root down
     * to `address`, level by level.
     */
    method Send(address: string, args: seq<Arg>)
      requires Valid()
      modifies this
      ensures Valid() && connections == old(connections)
      ensures nsTree == Retain(old(nsTree), Segments(address), args)
      ensures sent == old(sent) + Fanout(DeliverySet(nsTree, Segments(address)), Message(address, args))
    {
      var p := Segments(address);
      nsTree := Retain(nsTree, p, args);
      Deliver(p, Message(address, args));
    }

    /** Hands `m` to the subscribers of each level from the root down to `p`. */
    method Deliver(p: Path, m: Message)
      modifies this`sent
      ensures sent == old(sent) + Fanout(DeliverySet(nsTree, p), m)
    {
      var level := 0;
      while level <= |p|
        invariant 0 <= level <= |p| + 1
        invariant sent == old(sent) + Fanout(Upto(nsTree, p, level), m)
      {
        var subs := SubsAt(nsTree, p[..level]);
        var k := 0;
        while k < |subs|
          invariant 0 <= k <= |subs|
          invariant sent == old(sent) + Fanout(Upto(nsTree, p, level) + subs[..k], m)
        {
          FanoutAppend(Upto(nsTree, p, level) + subs[..k], [subs[k]], m);
          assert Upto(nsTree, p, level) + subs[..k + 1] == Upto(nsTree, p, level) + subs[..k] + [subs[k]];
          sent := sent + [Delivery(subs[k], m)];
          k := k + 1;
        }
        assert subs[..k] == subs;
        level := level + 1;
      }
    }
  }

  /** The three addresses of the subscribe test, normalised. */
  lemma SubscribeTestPaths()
    ensures Segments("/bla") == ["bla"] && Segments("/bla/") == ["bla"] && Segments("/") == []
  {
    SegmentsOf(["bla"], "/bla");
    SegmentsOf(["bla"], "/bla/");
    SegmentsOf([], "/");
  }

  /**
   * The tree of the subscribe test: 1 subscribes at `/bla`, 2 at `/bla`, 1 at the root;
   * then `/bla` holds both connections, in that order, and the root holds one.
   */
  lemma SubscribeTree()
    ensures var t := NsTree.Subscribe(NsTree.Subscribe(NsTree.Subscribe(Initial, ["bla"], 1), ["bla"], 2), [], 1);
      SubsAt(t, ["bla"]) == [1, 2] && SubsAt(t, []) == [1]
  {
    var t1 := NsTree.Subscribe(Initial, ["bla"], 1);
    SubscribeEffect(Initial, ["bla"], 1);
    assert SubsAt(t1, ["bla"]) == [1] && SubsAt(t1, []) == [];
    var t2 := NsTree.Subscribe(t1, ["bla"], 2);
    SubscribeEffect(t1, ["bla"], 2);
    assert SubsAt(t2, ["bla"]) == [1, 2] && SubsAt(t2, []) == [];
    SubscribeEffect(t2, [], 1);
  }

  /** The calls of the subscribe test, on an open registry. */
  method SubscribeSteps(r: Registry, bla: string, blaSlash: string, root: string)
    requires r.Valid()
    modifies r
    ensures r.sent == old(r.sent) + [
      Delivery(1, Message(SubscribedAddress, [Str(bla)])),
      Delivery(2, Message(SubscribedAddress, [Str(blaSlash)])),
      Delivery(1, Message(SubscribedAddress, [Str(root)]))]
    ensures r.nsTree == NsTree.Subscribe(NsTree.Subscribe(NsTree.Subscribe(
      old(r.nsTree), Segments(bla), 1), Segments(blaSlash), 2), Segments(root), 1)
  {
    r.Subscribe(1, bla);
    r.Subscribe(2, blaSlash);
    r.Subscribe(1, root);
  }

  /**
   * The subscribe test: connections 2 and 1 open, 1 subscribes to `/bla`, 2 to `/bla/`
   * and 1 to `/`. Each gets its acknowledgement with the address it wrote, `/bla` holds
   * two connections and `/` one.
   */
  method SubscribeScenario() returns (received: seq<Delivery>, atBla: nat, atRoot: nat)
    ensures received == [
      Delivery(1, Message(SubscribedAddress, [Str("/bla")])),
      Delivery(2, Message(SubscribedAddress, [Str("/bla/")])),
      Delivery(1, Message(SubscribedAddress, [Str("/")]))]
    ensures atBla == 2 && atRoot == 1
  {
    var r := new Registry();
    r.Open(2);
    r.Open(1);
    SubscribeTestPaths();
    SubscribeSteps(r, "/bla", "/bla/", "/");
    received := r.sent;
    SubscribeTree();
    atBla := |SubsAt(r.nsTree, Segments("/bla"))|;
    atRoot := |SubsAt(r.nsTree, Segments("/"))|;
  }

  /** The bytes of `new Buffer('hello')`. */
  const Hello: seq<byte> := [104, 101, 108, 108, 111]

  /** The bytes of `new Buffer('tyutyu')`. */
  const Tyutyu: seq<byte> := [116, 121, 117, 116, 121, 117]

  /** The six addresses of the resend test, normalised. */
  lemma ResendTestPaths()
    ensures Segments("/bla") == ["bla"] && Segments("/bla/blo") == ["bla", "blo"]
    ensures Segments("/blu") == ["blu"] && Segments("/bli") == ["bli"] && Segments("/bly") == ["bly"]
    ensures Segments("/neverSeenBefore") == ["neverSeenBefore"]
  {
    SegmentsChild("", "bla");
    assert "" + "/" + "bla" == "/bla";
    SegmentsChild("/bla", "blo");
    assert "/bla" + "/" + "blo" == "/bla/blo";
    SegmentsChild("", "blu");
    assert "" + "/" + "blu" == "/blu";
    SegmentsChild("", "bli");
    assert "" + "/" + "bli" == "/bli";
    SegmentsChild("", "bly");
    assert "" + "/" + "bly" == "/bly";
    SegmentsChild("", "neverSeenBefore");
    assert "" + "/" + "neverSeenBefore" == "/neverSeenBefore";
  }

  /** Sends to a registry where nobody is subscribed hand nothing to any transport. */
  method SendUnheard(r: Registry, address: string, args: seq<Arg>)
    requires r.Valid() && NoSubscribers(r.nsTree)
    modifies r
    ensures r.Valid() && NoSubscribers(r.nsTree)
    ensures r.nsTree == Retain(old(r.nsTree), Segments(address), args)
    ensures r.sent == old(r.sent)
  {
    RetainNoSubscribers(r.nsTree, Segments(address), args);
    r.Send(address, args);
    NoSubscribersNoDelivery(r.nsTree, Segments(address));
  }

  /** The tree after the eight sends of the first resend test, to the nodes at the five paths given. */
  ghost function ResendTree(t: Tree, bla: Path, blaBlo: Path, blu: Path, bli: Path, bly: Path): Tree
    requires NsTree.Valid(t)
  {
    var t1 := Retain(t, bla, [Num(1), Str("toitoi"), Blob(Hello)]);
    var t2 := Retain(t1, blaBlo, [Num(111)]);
    var t3 := Retain(t2, blu, [Str("feeling")]);
    var t4 := Retain(t3, blaBlo, [Num(222)]);
    var t5 := Retain(t4, bli, []);
    var t6 := Retain(t5, bly, [Blob(Tyutyu)]);
    var t7 := Retain(t6, bla, [Num(2), Str("tutu"), Blob(Hello)]);
    Retain(t7, blaBlo, [Num(333)])
  }

  /**
   * What the eight sends of the first resend test leave behind: the last list sent to
   * each path, whatever was sent to the others afterwards, and nothing at a path no
   * send reached.
   */
  lemma ResendRetainedAt(t: Tree, bla: Path, blaBlo: Path, blu: Path, bli: Path, bly: Path, never: Path)
    requires NsTree.Valid(t) && Retained(t, never) == []
    requires bla != blaBlo && bli !in [bla, blaBlo, bly] && never !in [bla, blaBlo, blu, bli, bly]
    ensures var u := ResendTree(t, bla, blaBlo, blu, bli, bly);
      && Retained(u, bla) == [Num(2), Str("tutu"), Blob(Hello)]
      && Retained(u, blaBlo) == [Num(333)]
      && Retained(u, bli) == []
      && Retained(u, never) == []
  {
    var t1 := Retain(t, bla, [Num(1), Str("toitoi"), Blob(Hello)]);
    var t2 := Retain(t1, blaBlo, [Num(111)]);
    var t3 := Retain(t2, blu, [Str("feeling")]);
    var t4 := Retain(t3, blaBlo, [Num(222)]);
    assert Retained(t4, never) == [];
    var t5 := Retain(t4, bli, []);
    var t6 := Retain(t5, bly, [Blob(Tyutyu)]);
    var t7 := Retain(t6, bla, [Num(2), Str("tutu"), Blob(Hello)]);
    assert Retained(t7, never) == [] && Retained(t7, bli) == [];
  }

  /** The same, at the five addresses of the test. */
  lemma ResendRetained(t: Tree, bla: string, blaBlo: string, blu: string, bli: string, bly: string, never: string)
    requires NsTree.Valid(t) && Retained(t, ["neverSeenBefore"]) == []
    requires Segments(bla) == ["bla"] && Segments(blaBlo) == ["bla", "blo"]
    requires Segments(blu) == ["blu"] && Segments(bli) == ["bli"] && Segments(bly) == ["bly"]
    requires Segments(never) == ["neverSeenBefore"]
    ensures var u := ResendTree(t, Segments(bla), Segments(blaBlo), Segments(blu), Segments(bli), Segments(bly));
      && Retained(u, ["bla"]) == [Num(2), Str("tutu"), Blob(Hello)]
      && Retained(u, ["bla", "blo"]) == [Num(333)]
      && Retained(u, ["bli"]) == []
      && Retained(u, ["neverSeenBefore"]) == []
  {
    var p: Path := ["neverSeenBefore"];
    assert ["bla"] != ["bla", "blo"] && ["bli"] !in [["bla"], ["bla", "blo"], ["bly"]];
    assert p !in [["bla"], ["bla", "blo"], ["blu"], ["bli"], ["bly"]];
    ResendRetainedAt(t, Segments(bla), Segments(blaBlo), Segments(blu), Segments(bli), Segments(bly), p);
  }

  /** The eight sends of the first resend test, on a registry where nobody is subscribed. */
  method ResendSends(r: Registry, bla: string, blaBlo: string, blu: string, bli: string, bly: string)
    requires r.Valid() && NoSubscribers(r.nsTree)
    modifies r
    ensures r.Valid()
    ensures r.nsTree == ResendTree(old(r.nsTree), Segments(bla), Segments(blaBlo), Segments(blu),
      Segments(bli), Segments(bly))
    ensures r.sent == old(r.sent)
  {
    SendUnheard(r, bla, [Num(1), Str("toitoi"), Blob(Hello)]);
    SendUnheard(r, blaBlo, [Num(111)]);
    SendUnheard(r, blu, [Str("feeling")]);
    SendUnheard(r, blaBlo, [Num(222)]);
    SendUnheard(r, bli, []);
    SendUnheard(r, bly, [Blob(Tyutyu)]);
    SendUnheard(r, bla, [Num(2), Str("tutu"), Blob(Hello)]);
    SendUnheard(r, blaBlo, [Num(333)]);
  }

  /** The four resends of the first resend test. */
  method ResendReplies(r: Registry, bla: string, blaBlo: string, bli: string, never: string)
    requires r.Valid()
    requires Segments(bla) == ["bla"] && Segments(blaBlo) == ["bla", "blo"]
    requires Segments(bli) == ["bli"] && Segments(never) == ["neverSeenBefore"]
    requires Retained(r.nsTree, ["bla"]) == [Num(2), Str("tutu"), Blob(Hello)]
    requires Retained(r.nsTree, ["bla", "blo"]) == [Num(333)]
    requires Retained(r.nsTree, ["bli"]) == [] && Retained(r.nsTree, ["neverSeenBefore"]) == []
    modifies r
    ensures r.sent == old(r.sent) + [
      Delivery(1, Message(bla, [Num(2), Str("tutu"), Blob(Hello)])),
      Delivery(1, Message(blaBlo, [Num(333)])),
      Delivery(1, Message(bli, [])),
      Delivery(1, Message(never, []))]
  {
    r.Resend(1, bla);
    r.Resend(1, blaBlo);
    r.Resend(1, bli);
    r.Resend(1, never);
  }

  /** The calls of the first resend test, on a registry where nobody is subscribed. */
  method ResendSteps(r: Registry, bla: string, blaBlo: string, blu: string, bli: string, bly: string, never: string)
    requires r.Valid() && NoSubscribers(r.nsTree) && Retained(r.nsTree, ["neverSeenBefore"]) == []
    requires Segments(bla) == ["bla"] && Segments(blaBlo) == ["bla", "blo"]
    requires Segments(blu) == ["blu"] && Segments(bli) == ["bli"] && Segments(bly) == ["bly"]
    requires Segments(never) == ["neverSeenBefore"]
    modifies r
    ensures r.sent == old(r.sent) + [
      Delivery(1, Message(bla, [Num(2), Str("tutu"), Blob(Hello)])),
      Delivery(1, Message(blaBlo, [Num(333)])),
      Delivery(1, Message(bli, [])),
      Delivery(1, Message(never, []))]
  {
    ghost var t0 := r.nsTree;
    ResendSends(r, bla, blaBlo, blu, bli, bly);
    ResendRetained(t0, bla, blaBlo, blu, bli, bly, never);
    ResendReplies(r, bla, blaBlo, bli, never);
  }

  /**
   * The first resend test: eight sends to five addresses, then `resend` of `/bla`,
   * `/bla/blo`, `/bli` (last sent an empty list) and `/neverSeenBefore`. The requester
   * gets back the last list sent to each exact address, `[]` for the last two, and
   * nothing else: the sends reach nobody, since nobody subscribed.
   */
  method ResendScenario() returns (received: seq<Delivery>)
    ensures received == [
      Delivery(1, Message("/bla", [Num(2), Str("tutu"), Blob(Hello)])),
      Delivery(1, Message("/bla/blo", [Num(333)])),
      Delivery(1, Message("/bli", [])),
      Delivery(1, Message("/neverSeenBefore", []))]
  {
    var r := new Registry();
    r.Open(1);
    InitialEmpty();
    ResendTestPaths();
    ResendSteps(r, "/bla", "/bla/blo", "/blu", "/bli", "/bly", "/neverSeenBefore");
    received := r.sent;
  }

  /**
   * The second resend test: a node that exists only because of a subscribe has no last
   * message, so `resend` answers `[]` after the acknowledgement.
   */
  method ResendAfterSubscribeScenario() returns (received: seq<Delivery>)
    ensures received == [
      Delivery(1, Message("/sys/subscribed", [Str("/bla")])),
      Delivery(1, Message("/bla", []))]
  {
    var r := new Registry();
    r.Open(1);
    SegmentsOf(["bla"], "/bla");
    ghost var t0 := r.nsTree;
    r.Subscribe(1, "/bla");
    SubscribeEffect(t0, ["bla"], 1);
    r.Resend(1, "/bla");
    received := r.sent;
  }
}
