/**
 * The blob relay. Binary payloads do not travel inline between the desktop client and
 * the server: the receiving side writes them to a file under the configured blobs
 * directory and forwards the file's path, and a file is only ever read back when its
 * path, once normalised, lies inside that directory. The files are an abstract store
 * from normalised absolute paths to contents.
 */
module Blobs {
  import opened Results
  import opened Messages
  import opened Address
  import opened NsTree

  /** The files of the blobs directory, by normalised absolute path. */
  type Store = map<Path, seq<byte>>

  /** Why the relay refuses a message: what goes back on the error address. */
  datatype RelayError =
    | OutsideBlobsDir(path: string)
    | NoSuchFile(path: string)
    | MalformedArgs

  /** A path with no `.` or `..` component left in it. */
  predicate Normal(p: Path) {
    forall i :: 0 <= i < |p| ==> p[i] != "." && p[i] != ".."
  }

  /** Walks one more component: `.` stays, `..` climbs (never above the root), a name descends. */
  function Walk(acc: Path, s: string): (r: Path)
    ensures r <= acc || r == acc + [s]
    ensures |r| <= |acc| + 1
    ensures Normal(acc) ==> Normal(r)
  {
    if s == "." then acc
    else if s == ".." then (if acc == [] then [] else acc[..|acc| - 1])
    else acc + [s]
  }

  /**
   * POSIX normalisation of an absolute path's components, left to right: `.` is
   * dropped and `..` removes the component before it.
   */
  function Normalize(p: Path): (r: Path)
    ensures Normal(r) && |r| <= |p|
  {
    if p == [] then [] else Walk(Normalize(p[..|p| - 1]), p[|p| - 1])
  }

  /** A normalised path is left as it is. */
  lemma {:induction false} NormalizeNormal(p: Path)
    requires Normal(p)
    ensures Normalize(p) == p
    decreases |p|
  {
    if p != [] {
      NormalizeNormal(p[..|p| - 1]);
      assert p[..|p| - 1] + [p[|p| - 1]] == p;
    }
  }

  /** Normalising twice is normalising once. */
  lemma NormalizeIdempotent(p: Path)
    ensures Normalize(Normalize(p)) == Normalize(p)
  {
    NormalizeNormal(Normalize(p));
  }

  /** A name that can be created in a directory: one segment, neither `.` nor `..`. */
  predicate FileName(name: string) {
    IsSegment(name) && name != "." && name != ".."
  }

  /**
   * `path` names something strictly inside the directory `dir`: it is absolute and,
   * normalised, extends `dir` by at least one component.
   */
  predicate Contained(dir: Path, path: string): (r: bool)
    ensures r ==> |path| > 0 && path[0] == '/'
    ensures r ==> Normalize(Segments(path)) != dir
  {
    |path| > 0 && path[0] == '/' &&
    var q := Normalize(Segments(path));
    |dir| < |q| && q[..|dir|] == dir
  }

  /** Reads the file at `path`, refusing any path outside `dir`. */
  function ReadBlob(store: Store, dir: Path, path: string): (r: Result<seq<byte>, RelayError>)
    ensures r.Ok? <==> Contained(dir, path) && Normalize(Segments(path)) in store
    ensures r.Ok? ==> r.value == store[Normalize(Segments(path))]
    ensures r.Err? && !Contained(dir, path) ==> r.error == OutsideBlobsDir(path)
  {
    if !Contained(dir, path) then Err(OutsideBlobsDir(path))
    else if Normalize(Segments(path)) !in store then Err(NoSuchFile(path))
    else Ok(store[Normalize(Segments(path))])
  }

  /**
   * Nothing outside the directory is ever disclosed: two stores that agree on every
   * contained path give the same answer to every read.
   */
  lemma ReadBlobConfined(s1: Store, s2: Store, dir: Path, path: string)
    requires forall q :: |dir| < |q| && q[..|dir|] == dir ==> (q in s1 <==> q in s2)
    requires forall q :: q in s1 && q in s2 ==> s1[q] == s2[q]
    ensures ReadBlob(s1, dir, path) == ReadBlob(s2, dir, path)
  {
  }

  /** The result of receiving a blob: the store with the new file, and the message to forward. */
  datatype Saved = Saved(store: Store, msg: Message)

  /**
   * An inbound blob message `[address, bytes, flag]`: the bytes are written to the new
   * file `name` of `dir`, and the message forwarded downstream is `address` with the
   * bytes replaced by that file's path and the flag kept. Anything else is refused.
   */
  function ReceiveBlob(store: Store, dir: Path, name: string, args: seq<Arg>): (r: Result<Saved, RelayError>)
    ensures r.Ok? <==> |args| == 3 && args[0].Str? && args[1].Blob?
    ensures r.Err? ==> r.error == MalformedArgs
  {
    if |args| == 3 && args[0].Str? && args[1].Blob? then
      var file := dir + [name];
      Ok(Saved(store[file := args[1].bytes], Message(args[0].s, [Str(Canonical(file)), args[2]])))
    else Err(MalformedArgs)
  }

  /**
   * What receiving a blob achieves: exactly one message goes on, at the same address
   * written the same way, whose first argument is a path inside `dir` from which the
   * original bytes read back and whose second is the flag; no other file changes.
   */
  lemma ReceiveBlobSaves(store: Store, dir: Path, name: string, address: string, bytes: seq<byte>, flag: Arg)
    requires WellFormed(dir) && Normal(dir) && FileName(name)
    ensures var r := ReceiveBlob(store, dir, name, [Str(address), Blob(bytes), flag]);
      && r.Ok?
      && r.value.msg.address == address
      && |r.value.msg.args| == 2 && r.value.msg.args[0].Str? && r.value.msg.args[1] == flag
      && Contained(dir, r.value.msg.args[0].s)
      && Normalize(Segments(r.value.msg.args[0].s)) == dir + [name]
      && ReadBlob(r.value.store, dir, r.value.msg.args[0].s) == Ok(bytes)
      && forall q :: q != dir + [name] ==> (q in store <==> q in r.value.store)
    ensures var r := ReceiveBlob(store, dir, name, [Str(address), Blob(bytes), flag]);
      forall q :: q in store && q != dir + [name] ==> r.value.store[q] == store[q]
  {
    var file := dir + [name];
    assert WellFormed(file) by {
      forall i | 0 <= i < |file| ensures IsSegment(file[i]) {
        if i < |dir| { assert file[i] == dir[i]; } else { assert file[i] == name; }
      }
    }
    assert Normal(file) by {
      forall i | 0 <= i < |file| ensures file[i] != "." && file[i] != ".." {
        if i < |dir| { assert file[i] == dir[i]; } else { assert file[i] == name; }
      }
    }
    SegmentsCanonical(file);
    NormalizeNormal(file);
    assert file[..|dir|] == dir;
  }

  /** Receiving a blob leaves every other file readable as before. */
  lemma ReceiveBlobKeeps(store: Store, dir: Path, name: string, args: seq<Arg>, path: string)
    requires ReceiveBlob(store, dir, name, args).Ok?
    requires Normalize(Segments(path)) != dir + [name]
    ensures ReadBlob(ReceiveBlob(store, dir, name, args).value.store, dir, path) == ReadBlob(store, dir, path)
  {
  }

  /** What the desktop client pushes back for a gimme-blob request, or reports instead. */
  datatype Reply = Push(msg: Message) | ReportError(error: RelayError)

  /**
   * A gimme-blob request `[address, path]`: the file at `path` is pushed at `address`
   * as a blob when `path` lies inside `dir` and exists; otherwise the refusal is
   * reported, and no content goes out.
   */
  function GimmeBlob(store: Store, dir: Path, args: seq<Arg>): (r: Reply)
    ensures r.Push? <==> |args| == 2 && args[0].Str? && args[1].Str? && ReadBlob(store, dir, args[1].s).Ok?
    ensures r.Push? ==> r.msg == Message(args[0].s, [Blob(ReadBlob(store, dir, args[1].s).value)])
  {
    if |args| == 2 && args[0].Str? && args[1].Str? then
      match ReadBlob(store, dir, args[1].s)
      case Ok(bytes) => Push(Message(args[0].s, [Blob(bytes)]))
      case Err(e) => ReportError(e)
    else ReportError(MalformedArgs)
  }

  /** A path outside the directory is reported as such, whatever the store holds. */
  lemma GimmeBlobRefusesOutside(store: Store, dir: Path, address: string, path: string)
    requires !Contained(dir, path)
    ensures GimmeBlob(store, dir, [Str(address), Str(path)]) == ReportError(OutsideBlobsDir(path))
  {
  }

  /** The JSON envelope a web connection receives for a blob: `{command, address, filePath}`. */
  datatype Envelope = Envelope(command: string, address: string, filePath: string)

  /** One envelope handed to web connection `to`. */
  datatype WebDelivery = WebDelivery(to: ConnId, envelope: Envelope)

  /**
   * A blob sent from the desktop side as `(address, [filePath])`, relayed to the web
   * connections: refused when `filePath` lies outside `dir`, and otherwise one
   * envelope per subscriber at each level from the root down to `address`.
   */
  function RelayToWeb(t: Tree, dir: Path, address: string, filePath: string): (r: Result<seq<WebDelivery>, RelayError>)
    ensures r.Err? <==> !Contained(dir, filePath)
    ensures r.Err? ==> r.error == OutsideBlobsDir(filePath)
    ensures r.Ok? ==> Recipients(r.value) == DeliverySet(t, Segments(address))
    ensures r.Ok? ==> forall i :: 0 <= i < |r.value| ==>
      r.value[i].envelope == Envelope("blob", address, filePath)
  {
    if !Contained(dir, filePath) then Err(OutsideBlobsDir(filePath))
    else
      var ids := DeliverySet(t, Segments(address));
      Ok(seq(|ids|, i requires 0 <= i < |ids| => WebDelivery(ids[i], Envelope("blob", address, filePath))))
  }

  /** The connections a sequence of envelopes goes to, in order. */
  function Recipients(ds: seq<WebDelivery>): (r: seq<ConnId>)
    ensures |r| == |ds| && forall i :: 0 <= i < |ds| ==> r[i] == ds[i].to
  {
    seq(|ds|, i requires 0 <= i < |ds| => ds[i].to)
  }

  /**
   * Who gets a relayed blob: connection `c` gets an envelope if and only if it is
   * subscribed at some level from the root down to `address`, and it gets one per
   * such level.
   */
  lemma RelayToWebReaches(t: Tree, dir: Path, address: string, filePath: string, c: ConnId)
    requires Valid(t) && Contained(dir, filePath)
    ensures var p := Segments(address);
      var to := Recipients(RelayToWeb(t, dir, address, filePath).value);
      && (c in to <==> exists j :: 0 <= j <= |p| && c in SubsAt(t, p[..j]))
      && multiset(to)[c] == |LevelsUpto(t, p, |p| + 1, c)|
  {
    var p := Segments(address);
    DeliveryMember(t, p, c);
    DeliveryCount(t, p, c);
  }
}
