/**
 * The storage backend the engine talks to, abstracted: a map from canonical
 * keys to nodes, a map saying which backend calls fail and how, and a
 * function giving what a listing yields. The source side is a value (the
 * engine only reads it); the destination is an object whose nodes and call
 * log change as the engine creates directories and writes files.
 */
module Storage {
  import opened Wrappers
  import opened Errors
  import opened Paths

  newtype byte = x: int | 0 <= x < 256

  /** One chunk of a byte stream. */
  type Chunk = seq<byte>

  datatype EntryMode = FILE | DIR | Unknown

  /** What `stat` and a listing report about an object; the content-disposition
      header is represented by the file name it carries, if any. */
  datatype Metadata = Metadata(mode: EntryMode, contentType: Option<string>, dispositionName: Option<string>)

  const DirMeta := Metadata(DIR, None, None)

  /** One listed object. */
  datatype Entry = Entry(path: string, meta: Metadata)

  datatype ListOptions = ListOptions(recursive: bool, limit: Option<nat>, startAfter: Option<string>)

  const DefaultListOptions := ListOptions(false, None, None)

  /** What a lister yields: its entries in order, then either the end or an error. */
  datatype Listing = Listing(entries: seq<Entry>, end: Outcome)

  /** A stored object. A file's content is a sequence of chunks, read back in
      that order; `streamEnd` is the error its byte stream reports after the
      chunks, if any. `Special` is an object of any other kind. */
  datatype Node =
    | File(chunks: seq<Chunk>, contentType: Option<string>, dispositionName: Option<string>, streamEnd: Option<IoErrorKind>)
    | Dir
    | Special

  /** The backend calls that can fail, each on a canonical key; a write is also
      identified by the position of its chunk in the file. */
  datatype Op =
    | StatOp(key: string)
    | ListOp(key: string)
    | ReaderOp(key: string)
    | StreamOp(key: string)
    | CreateDirOp(key: string)
    | WriterOp(key: string)
    | WriteOp(key: string, index: nat)
    | CloseOp(key: string)

  type Faults = map<Op, ErrorKind>

  /** The calls that change the destination, as they are issued. */
  datatype Call =
    | CreateDirCall(path: string)
    | OpenWriterCall(path: string, contentType: Option<string>)
    | WriteCall(key: string, chunk: Chunk)
    | CloseCall(key: string)

  function MetaOf(n: Node): Metadata
  {
    match n
    case File(_, ct, dn, _) => Metadata(FILE, ct, dn)
    case Dir => DirMeta
    case Special => Metadata(Unknown, None, None)
  }

  // ---------------------------------------------------------------------------
  // Canonical keys
  // ---------------------------------------------------------------------------

  /** The pieces that are not empty, in order. */
  function NonEmpty(parts: seq<string>): (ns: seq<string>)
  {
    if parts == [] then []
    else if parts[0] == "" then NonEmpty(parts[1..])
    else [parts[0]] + NonEmpty(parts[1..])
  }

  /** The key a backend stores a path under: leading separators removed and
      empty pieces dropped, a trailing separator kept, and the root `/` for a
      path with no pieces left. */
  function StoreKey(path: string): string
  {
    var ns := NonEmpty(Split(path));
    if ns == [] then "/" else Join(ns) + (if EndsWithSlash(path) then "/" else "")
  }

  lemma {:induction false} NonEmptyOfNonEmpty(ns: seq<string>)
    requires forall i :: 0 <= i < |ns| ==> ns[i] != ""
    ensures NonEmpty(ns) == ns
  {
    if ns != [] {
      NonEmptyOfNonEmpty(ns[1..]);
    }
  }

  lemma {:induction false} NonEmptyConcat(a: seq<string>, b: seq<string>)
    ensures NonEmpty(a + b) == NonEmpty(a) + NonEmpty(b)
  {
    if a == [] {
      assert a + b == b;
    } else {
      assert (a + b)[0] == a[0];
      assert (a + b)[1..] == a[1..] + b;
      NonEmptyConcat(a[1..], b);
    }
  }

  /** A path made of proper names, with or without a trailing separator, is its own key. */
  lemma StoreKeyOfNames(ns: seq<string>, dir: bool)
    requires |ns| > 0
    requires forall i :: 0 <= i < |ns| ==> IsName(ns[i])
    ensures StoreKey(Join(ns) + (if dir then "/" else "")) == Join(ns) + (if dir then "/" else "")
  {
    var p := Join(ns) + (if dir then "/" else "");
    PiecesOfNames(ns, dir);
    NonEmptyConcat(ns, if dir then [""] else []);
    NonEmptyOfNonEmpty(ns);
    assert NonEmpty(Split(p)) == ns;
    JoinOfNamesBare(ns);
    if dir {
      assert EndsWithSlash(p);
    } else {
      assert !EndsWithSlash(p);
    }
  }

  /** A proper name is its own key. */
  lemma StoreKeyOfName(n: string)
    requires IsName(n)
    ensures StoreKey(n) == n
  {
    StoreKeyOfNames([n], false);
    assert Join([n]) + "" == n;
  }

  /** The empty path and the root name the root. */
  lemma StoreKeyRoot()
    ensures StoreKey("") == "/" && StoreKey("/") == "/"
  {
    SplitRoot();
    assert NonEmpty(["", ""]) == [];
    assert Split("") == [""];
  }

  /** A doubled trailing separator is one separator. */
  lemma StoreKeyDoubleSlash(x: string)
    requires x != ""
    ensures StoreKey(x + "/" + "/") == StoreKey(x + "/")
  {
    assert x + "/" + "/" == (x + "/") + "/" + "";
    SplitConcat(x + "/", "");
    assert x + "/" == x + "/" + "";
    SplitConcat(x, "");
    var px := Split(x);
    assert Split(x + "/" + "/") == px + [""] + [""];
    assert Split(x + "/") == px + [""];
    NonEmptyConcat(px + [""], [""]);
    NonEmptyConcat(px, [""]);
    assert NonEmpty([""]) == [];
    assert NonEmpty(Split(x + "/" + "/")) == NonEmpty(px) == NonEmpty(Split(x + "/"));
    assert EndsWithSlash(x + "/" + "/") && EndsWithSlash(x + "/");
  }

  // ---------------------------------------------------------------------------
  // Reading
  // ---------------------------------------------------------------------------

  /** `stat`: an injected fault first, then the root is a directory, a stored
      node reports its metadata and anything else is not found. */
  function StatIn(nodes: map<string, Node>, faults: Faults, path: string): (r: Result<Metadata>)
    ensures r.Err? && r.kind != NotFound ==> StatOp(StoreKey(path)) in faults
    ensures r.Ok? && r.value.mode == FILE ==> StoreKey(path) in nodes && nodes[StoreKey(path)].File?
  {
    var key := StoreKey(path);
    if StatOp(key) in faults then Err(faults[StatOp(key)])
    else if key == "/" then Ok(DirMeta)
    else if key in nodes then Ok(MetaOf(nodes[key]))
    else Err(NotFound)
  }

  /** A file's byte stream: its chunks in order, then the error it ends with, if any. */
  datatype Stream = Stream(chunks: seq<Chunk>, end: Option<IoErrorKind>)

  /** A store the engine reads from. */
  datatype Store = Store(nodes: map<string, Node>, faults: Faults, lister: (string, ListOptions) -> Listing)
  {
    function Stat(path: string): Result<Metadata> { StatIn(nodes, faults, path) }

    /** `reader`: a key naming a directory is refused. */
    function Reader(path: string): (r: Outcome)
      ensures r.Ok? ==> !EndsWithSlash(StoreKey(path))
    {
      var key := StoreKey(path);
      if EndsWithSlash(key) then Err(IsADirectory)
      else if ReaderOp(key) in faults then Err(faults[ReaderOp(key)])
      else Ok(())
    }

    /** `into_bytes_stream`: the stream of a stored file; anything else is not found. */
    function OpenStream(path: string): (r: Result<Stream>)
      ensures r.Ok? ==> StoreKey(path) in nodes && nodes[StoreKey(path)].File?
      ensures r.Ok? ==> r.value == Stream(nodes[StoreKey(path)].chunks, nodes[StoreKey(path)].streamEnd)
    {
      var key := StoreKey(path);
      if StreamOp(key) in faults then Err(faults[StreamOp(key)])
      else if key in nodes && nodes[key].File? then Ok(Stream(nodes[key].chunks, nodes[key].streamEnd))
      else Err(NotFound)
    }

    /** `lister_with`: a lister over a key with the given options. */
    function Lister(path: string, options: ListOptions): (r: Result<Listing>)
      ensures r.Err? <==> ListOp(StoreKey(path)) in faults
    {
      var key := StoreKey(path);
      if ListOp(key) in faults then Err(faults[ListOp(key)]) else Ok(lister(key, options))
    }
  }

  // ---------------------------------------------------------------------------
  // Writing
  // ---------------------------------------------------------------------------

  /** The state of a destination store: its nodes and the calls issued so far. */
  datatype DestState = DestState(nodes: map<string, Node>, log: seq<Call>)

  /** An open writer: the key it writes, the content type it was opened with
      and the chunks written so far. */
  datatype Writer = Writer(key: string, contentType: Option<string>, written: seq<Chunk>)

  /** `create_dir`: only a key ending in a separator names a directory. */
  function CreateDirStep(faults: Faults, s: DestState, path: string): (res: (Outcome, DestState))
    ensures res.1.log == s.log + [CreateDirCall(path)]
    ensures res.0.Ok? <==> EndsWithSlash(StoreKey(path)) && CreateDirOp(StoreKey(path)) !in faults
    ensures res.0.Ok? ==> res.1.nodes == s.nodes[StoreKey(path) := Dir]
    ensures res.0.Err? ==> res.1.nodes == s.nodes
    ensures !EndsWithSlash(StoreKey(path)) ==> res.0 == Err(NotADirectory)
  {
    var key := StoreKey(path);
    var log := s.log + [CreateDirCall(path)];
    if !EndsWithSlash(key) then (Err(NotADirectory), s.(log := log))
    else if CreateDirOp(key) in faults then (Err(faults[CreateDirOp(key)]), s.(log := log))
    else (Ok(()), DestState(s.nodes[key := Dir], log))
  }

  /** `writer_with(..).content_type(..)`: a key ending in a separator is refused. */
  function OpenWriterStep(faults: Faults, s: DestState, path: string, contentType: Option<string>): (res: (Result<Writer>, DestState))
    ensures res.1 == s.(log := s.log + [OpenWriterCall(path, contentType)])
    ensures res.0.Ok? <==> !EndsWithSlash(StoreKey(path)) && WriterOp(StoreKey(path)) !in faults
    ensures res.0.Ok? ==> res.0.value == Writer(StoreKey(path), contentType, [])
  {
    var key := StoreKey(path);
    var s' := s.(log := s.log + [OpenWriterCall(path, contentType)]);
    if EndsWithSlash(key) then (Err(IsADirectory), s')
    else if WriterOp(key) in faults then (Err(faults[WriterOp(key)]), s')
    else (Ok(Writer(key, contentType, [])), s')
  }

  /** `write`: the chunk is buffered by the writer; nothing is stored yet. */
  function WriteStep(faults: Faults, s: DestState, w: Writer, chunk: Chunk): (res: (Result<Writer>, DestState))
    ensures res.1 == s.(log := s.log + [WriteCall(w.key, chunk)])
    ensures res.0.Ok? <==> WriteOp(w.key, |w.written|) !in faults
    ensures res.0.Ok? ==> res.0.value == w.(written := w.written + [chunk])
  {
    var op := WriteOp(w.key, |w.written|);
    var s' := s.(log := s.log + [WriteCall(w.key, chunk)]);
    if op in faults then (Err(faults[op]), s') else (Ok(w.(written := w.written + [chunk])), s')
  }

  /** `close`: the written chunks become the stored file. */
  function CloseStep(faults: Faults, s: DestState, w: Writer): (res: (Outcome, DestState))
    ensures res.1.log == s.log + [CloseCall(w.key)]
    ensures res.0.Ok? <==> CloseOp(w.key) !in faults
    ensures res.0.Ok? ==> res.1.nodes == s.nodes[w.key := File(w.written, w.contentType, None, None)]
    ensures res.0.Err? ==> res.1.nodes == s.nodes
  {
    var log := s.log + [CloseCall(w.key)];
    if CloseOp(w.key) in faults then (Err(faults[CloseOp(w.key)]), s.(log := log))
    else (Ok(()), DestState(s.nodes[w.key := File(w.written, w.contentType, None, None)], log))
  }

  /** A destination store. Its fault map is fixed; its nodes and its call log
      change with every call. */
  class Destination {
    const faults: Faults
    var nodes: map<string, Node>
    var log: seq<Call>

    function State(): DestState
      reads this
    {
      DestState(nodes, log)
    }

    constructor(faults: Faults, nodes: map<string, Node>)
      ensures this.faults == faults && this.nodes == nodes && this.log == []
    {
      this.faults := faults;
      this.nodes := nodes;
      this.log := [];
    }

    method Stat(path: string) returns (r: Result<Metadata>)
      ensures r == StatIn(nodes, faults, path)
    {
      r := StatIn(nodes, faults, path);
    }

    method CreateDir(path: string) returns (r: Outcome)
      modifies this
      ensures (r, State()) == CreateDirStep(faults, old(State()), path)
    {
      var res := CreateDirStep(faults, State(), path);
      r, nodes, log := res.0, res.1.nodes, res.1.log;
    }

    method OpenWriter(path: string, contentType: Option<string>) returns (r: Result<Writer>)
      modifies this
      ensures (r, State()) == OpenWriterStep(faults, old(State()), path, contentType)
    {
      var res := OpenWriterStep(faults, State(), path, contentType);
      r, nodes, log := res.0, res.1.nodes, res.1.log;
    }

    method Write(w: Writer, chunk: Chunk) returns (r: Result<Writer>)
      modifies this
      ensures (r, State()) == WriteStep(faults, old(State()), w, chunk)
    {
      var res := WriteStep(faults, State(), w, chunk);
      r, nodes, log := res.0, res.1.nodes, res.1.log;
    }

    method Close(w: Writer) returns (r: Outcome)
      modifies this
      ensures (r, State()) == CloseStep(faults, old(State()), w)
    {
      var res := CloseStep(faults, State(), w);
      r, nodes, log := res.0, res.1.nodes, res.1.log;
    }
  }
}
