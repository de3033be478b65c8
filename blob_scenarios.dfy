/**
 * The desktop-client blob tests replayed on the model, with `/tmp` as the blobs
 * directory of both sides.
 */
module BlobScenarios {
  import opened Results
  import opened Messages
  import opened Address
  import opened NsTree
  import opened Blobs

  /** The configured blobs directory `/tmp`. */
  const Tmp: Path := ["tmp"]

  const Blobby1: seq<byte> := [98, 108, 111, 98, 98, 121, 49]
  const Blobby2: seq<byte> := [98, 108, 111, 98, 98, 121, 50]
  const Blobby3: seq<byte> := [98, 108, 111, 98, 98, 121, 51]

  /** A three-component absolute path, normalised. */
  lemma ThreeSegments(a: string, b: string, c: string)
    requires IsSegment(a) && IsSegment(b) && IsSegment(c)
    ensures Segments("/" + a + "/" + b + "/" + c) == [a, b, c]
  {
    SegmentsChild("", a);
    SegmentsChild("/" + a, b);
    SegmentsChild("/" + a + "/" + b, c);
    assert "" + "/" + a == "/" + a;
  }

  /**
   * The refusal test: a gimme-blob request for `/home/spiq/secret_file` while the
   * blobs directory is `/tmp` is answered with an error, never with the file.
   */
  lemma SecretFileRefused(store: Store)
    ensures GimmeBlob(store, Tmp, [Str("/bla"), Str("/home/spiq/secret_file")])
         == ReportError(OutsideBlobsDir("/home/spiq/secret_file"))
  {
    ThreeSegments("home", "spiq", "secret_file");
    assert "/" + "home" + "/" + "spiq" + "/" + "secret_file" == "/home/spiq/secret_file";
    var p: Path := ["home", "spiq", "secret_file"];
    assert Normal(p);
    NormalizeNormal(p);
    assert p[..1] != Tmp;
    GimmeBlobRefusesOutside(store, Tmp, "/bla", "/home/spiq/secret_file");
  }

  /** Climbing out with `..` is refused too: `/tmp/../passwd` is `/passwd`. */
  lemma TraversalRefused(store: Store)
    ensures GimmeBlob(store, Tmp, [Str("/bla"), Str("/tmp/../passwd")])
         == ReportError(OutsideBlobsDir("/tmp/../passwd"))
  {
    ThreeSegments("tmp", "..", "passwd");
    assert "/" + "tmp" + "/" + ".." + "/" + "passwd" == "/tmp/../passwd";
    var p: Path := ["tmp", "..", "passwd"];
    assert p[..2] == ["tmp", ".."] && p[..1] == ["tmp"] && p[..0] == [];
    assert Normalize(p) == ["passwd"];
    GimmeBlobRefusesOutside(store, Tmp, "/bla", "/tmp/../passwd");
  }

  /**
   * The receive-blob test: three blobs arrive for `/bla/blob`, `/blo/bli/blob/` and
   * `/blob` with flags 0, 0 and 1. Three messages go on, at the addresses as written,
   * each carrying a path from which its own bytes read back, and its flag.
   */
  lemma ReceiveBlobScenario(store: Store, n1: string, n2: string, n3: string)
    requires FileName(n1) && FileName(n2) && FileName(n3)
    requires n1 != n2 && n1 != n3 && n2 != n3
    ensures var r1 := ReceiveBlob(store, Tmp, n1, [Str("/bla/blob"), Blob(Blobby1), Num(0)]);
      var r2 := ReceiveBlob(r1.value.store, Tmp, n2, [Str("/blo/bli/blob/"), Blob(Blobby2), Num(0)]);
      var r3 := ReceiveBlob(r2.value.store, Tmp, n3, [Str("/blob"), Blob(Blobby3), Num(1)]);
      var s := r3.value.store;
      && r1.value.msg.address == "/bla/blob" && r1.value.msg.args[1] == Num(0)
      && ReadBlob(s, Tmp, r1.value.msg.args[0].s) == Ok(Blobby1)
      && r2.value.msg.address == "/blo/bli/blob/" && r2.value.msg.args[1] == Num(0)
      && ReadBlob(s, Tmp, r2.value.msg.args[0].s) == Ok(Blobby2)
      && r3.value.msg.address == "/blob" && r3.value.msg.args[1] == Num(1)
      && ReadBlob(s, Tmp, r3.value.msg.args[0].s) == Ok(Blobby3)
  {
    assert WellFormed(Tmp) && Normal(Tmp);
    var a1 := [Str("/bla/blob"), Blob(Blobby1), Num(0)];
    var a2 := [Str("/blo/bli/blob/"), Blob(Blobby2), Num(0)];
    var a3 := [Str("/blob"), Blob(Blobby3), Num(1)];
    ReceiveBlobSaves(store, Tmp, n1, "/bla/blob", Blobby1, Num(0));
    var r1 := ReceiveBlob(store, Tmp, n1, a1);
    var f1 := r1.value.msg.args[0].s;
    ReceiveBlobSaves(r1.value.store, Tmp, n2, "/blo/bli/blob/", Blobby2, Num(0));
    var r2 := ReceiveBlob(r1.value.store, Tmp, n2, a2);
    var f2 := r2.value.msg.args[0].s;
    ReceiveBlobSaves(r2.value.store, Tmp, n3, "/blob", Blobby3, Num(1));
    var r3 := ReceiveBlob(r2.value.store, Tmp, n3, a3);
    assert Tmp + [n1] != Tmp + [n2] by { assert (Tmp + [n1])[1] != (Tmp + [n2])[1]; }
    assert Tmp + [n1] != Tmp + [n3] by { assert (Tmp + [n1])[1] != (Tmp + [n3])[1]; }
    assert Tmp + [n2] != Tmp + [n3] by { assert (Tmp + [n2])[1] != (Tmp + [n3])[1]; }
    ReceiveBlobKeeps(r1.value.store, Tmp, n2, a2, f1);
    ReceiveBlobKeeps(r2.value.store, Tmp, n3, a3, f1);
    ReceiveBlobKeeps(r2.value.store, Tmp, n3, a3, f2);
  }

  /**
   * The tree of the send-blob test: one web connection (1) listening at `/bla` and
   * another (2) at the root, nobody anywhere else.
   */
  ghost predicate SendBlobTree(t: Tree) {
    Valid(t) && SubsAt(t, []) == [2] && SubsAt(t, ["bla"]) == [1] &&
    forall q :: q != [] && q != ["bla"] ==> SubsAt(t, q) == []
  }

  /** Such a tree arises from subscribing 1 at `/bla` and 2 at `/`. */
  lemma SendBlobTreeExists()
    ensures SendBlobTree(NsTree.Subscribe(NsTree.Subscribe(Initial, ["bla"], 1), [], 2))
  {
    InitialEmpty();
    var t1 := NsTree.Subscribe(Initial, ["bla"], 1);
    SubscribeEffect(Initial, ["bla"], 1);
    SubscribeEffect(t1, [], 2);
  }

  /** The first address of the send-blob test, normalised. */
  lemma SendBlobPath1()
    ensures Segments("/bla/bli/blob") == ["bla", "bli", "blob"]
  {
    ThreeSegments("bla", "bli", "blob");
    assert "/" + "bla" + "/" + "bli" + "/" + "blob" == "/bla/bli/blob";
  }

  /** The second and third addresses of the send-blob test, normalised. */
  lemma SendBlobPaths23()
    ensures Segments("/blob/") == ["blob"] && Segments("/BLO/blob/") == ["BLO", "blob"]
  {
    SegmentsOf(["blob"], "/blob/");
    SegmentsOf(["BLO", "blob"], "/BLO/blob/");
  }

  /** The files of the send-blob test lie inside `/tmp`. */
  lemma SendBlobFiles()
    ensures Contained(Tmp, "/tmp/blob1") && Contained(Tmp, "/tmp/blob2") && Contained(Tmp, "/tmp/blob3")
  {
    SegmentsChild("", "tmp");
    assert "" + "/" + "tmp" == "/tmp";
    SegmentsChild("/tmp", "blob1");
    SegmentsChild("/tmp", "blob2");
    SegmentsChild("/tmp", "blob3");
    assert "/tmp" + "/" + "blob1" == "/tmp/blob1";
    assert "/tmp" + "/" + "blob2" == "/tmp/blob2";
    assert "/tmp" + "/" + "blob3" == "/tmp/blob3";
    assert Normal(["tmp", "blob1"]) && Normal(["tmp", "blob2"]) && Normal(["tmp", "blob3"]);
    NormalizeNormal(["tmp", "blob1"]);
    NormalizeNormal(["tmp", "blob2"]);
    NormalizeNormal(["tmp", "blob3"]);
  }

  /** Below `/bla/x`, both listeners are reached, the root one first. */
  lemma DeliveryBelowBla(t: Tree, p: Path)
    requires SendBlobTree(t) && |p| == 3 && p[0] == "bla"
    ensures DeliverySet(t, p) == [2, 1]
  {
    assert p[..0] == [] && p[..1] == ["bla"] && p[..2] != [] && p[..2] != ["bla"] && p[..3] == p;
    assert Upto(t, p, 1) == [2];
    assert Upto(t, p, 2) == [2, 1];
    assert Upto(t, p, 3) == [2, 1];
  }

  /** Off `/bla`, only the root listener is reached. */
  lemma DeliveryOffBla(t: Tree, p: Path)
    requires SendBlobTree(t) && 1 <= |p| <= 2 && p[0] != "bla"
    ensures DeliverySet(t, p) == [2]
  {
    assert p[..0] == [] && p[..1] != [] && p[..1] != ["bla"];
    assert Upto(t, p, 1) == [2];
    assert Upto(t, p, 2) == [2];
    if |p| == 2 {
      assert p[..2] == p && p != ["bla"];
      assert Upto(t, p, 3) == [2];
    }
  }

  /** The relays of the send-blob test, for any addresses normalising as the test's do. */
  lemma SendBlobSteps(t: Tree, a1: string, a2: string, a3: string, f1: string, f2: string, f3: string)
    requires SendBlobTree(t)
    requires Segments(a1) == ["bla", "bli", "blob"] && Segments(a2) == ["blob"] && Segments(a3) == ["BLO", "blob"]
    requires Contained(Tmp, f1) && Contained(Tmp, f2) && Contained(Tmp, f3)
    ensures RelayToWeb(t, Tmp, a1, f1) == Ok([
      WebDelivery(2, Envelope("blob", a1, f1)), WebDelivery(1, Envelope("blob", a1, f1))])
    ensures RelayToWeb(t, Tmp, a2, f2) == Ok([WebDelivery(2, Envelope("blob", a2, f2))])
    ensures RelayToWeb(t, Tmp, a3, f3) == Ok([WebDelivery(2, Envelope("blob", a3, f3))])
  {
    DeliveryBelowBla(t, Segments(a1));
    DeliveryOffBla(t, Segments(a2));
    DeliveryOffBla(t, Segments(a3));
    var r1 := RelayToWeb(t, Tmp, a1, f1).value;
    assert Recipients(r1) == [2, 1];
    assert Recipients(r1)[0] == r1[0].to && Recipients(r1)[1] == r1[1].to;
    assert r1 == [WebDelivery(2, Envelope("blob", a1, f1)), WebDelivery(1, Envelope("blob", a1, f1))];
    var r2 := RelayToWeb(t, Tmp, a2, f2).value;
    assert Recipients(r2) == [2] && Recipients(r2)[0] == r2[0].to;
    assert r2 == [WebDelivery(2, Envelope("blob", a2, f2))];
    var r3 := RelayToWeb(t, Tmp, a3, f3).value;
    assert Recipients(r3) == [2] && Recipients(r3)[0] == r3[0].to;
    assert r3 == [WebDelivery(2, Envelope("blob", a3, f3))];
  }

  /**
   * The send-blob test: blobs sent to `/bla/bli/blob`, `/blob/` and `/BLO/blob/` reach
   * the `/bla` listener once and the root listener three times, four envelopes in all,
   * each with its address exactly as sent.
   */
  lemma SendBlobScenario(t: Tree)
    requires SendBlobTree(t)
    ensures RelayToWeb(t, Tmp, "/bla/bli/blob", "/tmp/blob1") == Ok([
      WebDelivery(2, Envelope("blob", "/bla/bli/blob", "/tmp/blob1")),
      WebDelivery(1, Envelope("blob", "/bla/bli/blob", "/tmp/blob1"))])
    ensures RelayToWeb(t, Tmp, "/blob/", "/tmp/blob2") == Ok([
      WebDelivery(2, Envelope("blob", "/blob/", "/tmp/blob2"))])
    ensures RelayToWeb(t, Tmp, "/BLO/blob/", "/tmp/blob3") == Ok([
      WebDelivery(2, Envelope("blob", "/BLO/blob/", "/tmp/blob3"))])
  {
    SendBlobPath1();
    SendBlobPaths23();
    SendBlobFiles();
    SendBlobSteps(t, "/bla/bli/blob", "/blob/", "/BLO/blob/", "/tmp/blob1", "/tmp/blob2", "/tmp/blob3");
  }
}
