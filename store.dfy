/**
 * The two ways the program saves the order store. New mode creates the output
 * file, which must not exist yet, and writes a list holding the one order that
 * was entered. Update mode first creates the output file, then opens the input
 * file, decodes the list stored in it, appends the order that was entered and
 * writes the whole list to the output file. The file system is a map from path
 * to contents; the order that was entered is a parameter.
 */
module Store {
  import opened Wrappers
  import opened Wire
  import opened Purchases
  import opened Codec
  import opened RoundTrip

  type Path = string

  type Files = map<Path, seq<Byte>>

  /** Why a run stops without saving. */
  datatype StoreError =
    | TargetExists(path: Path)    // the output file could not be created: it exists
    | SourceMissing(path: Path)   // the input file could not be opened
    | NotAStore(path: Path)       // the input file does not decode as a list of orders
    | StoreFull(path: Path)       // the list already holds the most orders a `Vec` can

  // ================================================================ the file system

  /** The files the program sees, by path. */
  class FileSystem {
    var files: Files

    constructor (files: Files)
      ensures this.files == files
    {
      this.files := files;
    }

    /** `File::create_new`: creates an empty file, and fails when the path is taken. */
    method CreateNew(path: Path) returns (created: bool)
      modifies this
      ensures created <==> path !in old(files)
      ensures files == if created then old(files)[path := []] else old(files)
    {
      created := path !in files;
      if created {
        files := files[path := []];
      }
    }

    /** `File::open` and reading what the decoder asks for: the file's
        contents, or nothing when there is no such file. */
    method Open(path: Path) returns (contents: Option<seq<Byte>>)
      ensures contents.Some? <==> path in files
      ensures contents.Some? ==> contents.value == files[path]
    {
      if path in files {
        contents := Some(files[path]);
      } else {
        contents := None;
      }
    }

    /** `encode_into_std_write` into a file this run created: its contents
        become `bytes`. */
    method Write(path: Path, bytes: seq<Byte>)
      requires path in files
      modifies this
      ensures files == old(files)[path := bytes]
    {
      files := files[path := bytes];
    }
  }

  // ================================================================ what each mode does

  lemma SingleStoreFits(order: Order)
    requires OrderFits(order)
    ensures StoreFits([order])
  {
    assert [order][1..] == [];
  }

  lemma {:induction false} OrderSeqFitsAppend(os: seq<Order>, order: Order)
    requires OrderSeqFits(os) && OrderFits(order)
    ensures OrderSeqFits(os + [order])
    decreases |os|
  {
    if os == [] {
      assert [order][1..] == [];
    } else {
      assert (os + [order])[0] == os[0];
      assert (os + [order])[1..] == os[1..] + [order];
      OrderSeqFitsAppend(os[1..], order);
    }
  }

  /** The list an update writes: the stored orders, then the new one, when a
      `Vec` can hold one more. */
  function Appended(stored: seq<Order>, order: Order): (r: Option<seq<Order>>)
    requires StoreFits(stored) && OrderFits(order)
    ensures r.Some? <==> |stored| + 1 < U64_LIMIT
    ensures r.Some? ==> StoreFits(r.value)
  {
    if |stored| + 1 < U64_LIMIT then
      OrderSeqFitsAppend(stored, order);
      Some(stored + [order])
    else None
  }

  /** The outcome of new mode and the files it leaves. */
  function NewStoreEffect(files: Files, output: Path, order: Order): (Outcome<StoreError>, Files)
    requires OrderFits(order)
  {
    if output in files then (Fail(TargetExists(output)), files)
    else
      SingleStoreFits(order);
      (Pass, files[output := EncodeOrders([order])])
  }

  /** The outcome of update mode and the files it leaves. The output file is
      created before the input file is opened, so every failure after the
      first leaves an empty output file behind. */
  function UpdateStoreEffect(files: Files, input: Path, output: Path, order: Order): (Outcome<StoreError>, Files)
    requires OrderFits(order)
  {
    if output in files then (Fail(TargetExists(output)), files)
    else
      var created := files[output := []];
      if input !in created then (Fail(SourceMissing(input)), created)
      else
        match DecodeOrders(created[input])
        case None => (Fail(NotAStore(input)), created)
        case Some(stored) =>
          match Appended(stored.value, order)
          case None => (Fail(StoreFull(output)), created)
          case Some(orders) => (Pass, created[output := EncodeOrders(orders)])
  }

  // ================================================================ the two modes

  /** New mode: `File::create_new`, then `vec!(order)` written in full. */
  method NewStore(fs: FileSystem, output: Path, order: Order) returns (r: Outcome<StoreError>)
    requires OrderFits(order)
    modifies fs
    ensures (r, fs.files) == NewStoreEffect(old(fs.files), output, order)
  {
    var created := fs.CreateNew(output);
    if !created {
      return Fail(TargetExists(output));
    }
    var theOutput := [order];
    SingleStoreFits(order);
    fs.Write(output, EncodeOrders(theOutput));
    r := Pass;
    assert fs.files == old(fs.files)[output := []][output := EncodeOrders([order])];
    assert fs.files == old(fs.files)[output := EncodeOrders([order])];
  }

  /** Update mode: create the output file, open and decode the input file,
      push the new order onto the decoded list, write the list in full. */
  method UpdateStore(fs: FileSystem, input: Path, output: Path, order: Order) returns (r: Outcome<StoreError>)
    requires OrderFits(order)
    modifies fs
    ensures (r, fs.files) == UpdateStoreEffect(old(fs.files), input, output, order)
  {
    var created := fs.CreateNew(output);
    if !created {
      return Fail(TargetExists(output));
    }
    var contents := fs.Open(input);
    if contents.None? {
      return Fail(SourceMissing(input));
    }
    var decoded := DecodeOrders(contents.value);
    if decoded.None? {
      return Fail(NotAStore(input));
    }
    var theOutput := decoded.value.value;
    if |theOutput| + 1 >= U64_LIMIT {
      return Fail(StoreFull(output));
    }
    OrderSeqFitsAppend(theOutput, order);
    theOutput := theOutput + [order];
    fs.Write(output, EncodeOrders(theOutput));
    r := Pass;
  }

  // ================================================================ properties

  /** New mode succeeds exactly when the output path is free; it then adds
      that one file, which decodes as a list of exactly the one order, and
      touches no other file. When it fails, nothing changes. */
  lemma NewStoreWritesOneOrder(files: Files, output: Path, order: Order)
    requires OrderFits(order)
    ensures var (r, files') := NewStoreEffect(files, output, order);
      && (r.Pass? <==> output !in files)
      && (r.Pass? ==> files'.Keys == files.Keys + {output}
                      && DecodeOrders(files'[output]) == Some(Decoded([order], []))
                      && forall p :: p in files ==> files'[p] == files[p])
      && (r.Fail? ==> r.error == TargetExists(output) && files' == files)
  {
    if output !in files {
      SingleStoreFits(order);
      assert EncodeOrders([order]) + [] == EncodeOrders([order]);
      OrdersRoundTrip([order], []);
    }
  }

  /** A successful update writes the stored list with exactly one order more:
      the earlier orders unchanged and in place, the new one last. The input
      file and every other file keep their contents. */
  lemma UpdateAppendsOne(files: Files, input: Path, output: Path, order: Order)
    requires OrderFits(order)
    requires UpdateStoreEffect(files, input, output, order).0.Pass?
    ensures input in files && output !in files && input != output
    ensures DecodeOrders(files[input]).Some?
    ensures var stored := DecodeOrders(files[input]).value.value;
            var files' := UpdateStoreEffect(files, input, output, order).1;
      && files'.Keys == files.Keys + {output}
      && (forall p :: p in files ==> files'[p] == files[p])
      && DecodeOrders(files'[output]).Some?
      && var written := DecodeOrders(files'[output]).value.value;
         && |written| == |stored| + 1
         && written[..|stored|] == stored
         && written[|stored|] == order
  {
    var created := files[output := []];
    assert DecodeOrders([]) == None;
    var stored := DecodeOrders(created[input]).value.value;
    var orders := Appended(stored, order).value;
    assert EncodeOrders(orders) + [] == EncodeOrders(orders);
    OrdersRoundTrip(orders, []);
    assert orders[..|stored|] == stored;
  }

  /** An update fails when the output path is taken, without touching any
      file; when the input path is missing, it has already created an empty
      output file; when the input does not decode, it reports the input path. */
  lemma UpdateFailures(files: Files, input: Path, output: Path, order: Order)
    requires OrderFits(order)
    ensures var (r, files') := UpdateStoreEffect(files, input, output, order);
      && (output in files ==> r == Fail(TargetExists(output)) && files' == files)
      && (output !in files && input !in files && input != output ==>
            r == Fail(SourceMissing(input)) && files' == files[output := []])
      && (output !in files && input in files && DecodeOrders(files[input]).None? ==>
            r == Fail(NotAStore(input)) && files' == files[output := []])
  {
  }

  /** Giving the same path as input and output never loses a stored list:
      either the path exists and nothing is touched, or the file just created
      is empty and does not decode. */
  lemma SamePathNeverOverwrites(files: Files, path: Path, order: Order)
    requires OrderFits(order)
    ensures var (r, files') := UpdateStoreEffect(files, path, path, order);
      && r.Fail?
      && (path in files ==> files' == files)
      && (path !in files ==> r == Fail(NotAStore(path)) && files' == files[path := []])
  {
    assert DecodeOrders([]) == None;
  }
}
