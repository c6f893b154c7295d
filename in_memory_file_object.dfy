/**
 * `InMemoryJavaFileObject`: one output file held in memory. Its state is an optional
 * byte content and a last-modified stamp; closing an output stream or a writer is the
 * only way to give it content, and `delete` takes it back to the empty state.
 */
module InMemoryFileObject {
  import opened Wrappers
  import opened JavaTools

  /** The two mutable fields of a file object, as a value. */
  datatype FileState = FileState(data: Option<seq<bv8>>, lastModified: Long) {
    /** A file with no content has never been stamped (or was reset by delete). */
    predicate Valid() {
      data.None? ==> lastModified == 0
    }
  }

  /** The state of a file object that was just created or just deleted. */
  const Empty := FileState(None, 0)

  /** What can happen to a file object's state. */
  datatype Op =
    | Commit(content: seq<bv8>, time: Long)  // an output stream or writer is closed at `time`
    | Erase                                  // `delete()`
    | OpenOnly                               // a stream is opened and never closed

  /** The state after one operation. */
  function Apply(s: FileState, op: Op): FileState {
    match op
    case Commit(c, t) => FileState(Some(c), t)
    case Erase => Empty
    case OpenOnly => s
  }

  /** The state after a whole history of operations, applied first to last. */
  function Run(s: FileState, ops: seq<Op>): FileState
    decreases |ops|
  {
    if ops == [] then s else Run(Apply(s, ops[0]), ops[1..])
  }

  /** The last operation in `ops` that changes anything, scanning from the end. */
  function LastMutation(ops: seq<Op>): Option<Op>
    decreases |ops|
  {
    if ops == [] then None
    else if ops[|ops| - 1].OpenOnly? then LastMutation(ops[..|ops| - 1])
    else Some(ops[|ops| - 1])
  }

  /** What `openInputStream` yields: the stored bytes, or not-found while there are none. */
  function Read(s: FileState): Result<seq<bv8>, IoError> {
    if s.data.Some? then Ok(s.data.value) else Err(FileNotFound)
  }

  /** What `openReader` and `getCharContent` yield: the stored bytes decoded with `cs`. */
  function ReadText(s: FileState, cs: Charset): Result<string, IoError> {
    if s.data.Some? then Ok(cs.decode(s.data.value)) else Err(FileNotFound)
  }

  /** A new file object cannot be read and reports a last-modified time of 0. */
  lemma EmptyIsUnreadable()
    ensures Empty.Valid()
    ensures Read(Empty) == Err(FileNotFound) && Empty.lastModified == 0
  {
  }

  /** Reading fails with not-found exactly when there is no content; otherwise it yields the content. */
  lemma ReadFailsExactlyWhenEmpty(s: FileState)
    ensures Read(s).Err? <==> s.data.None?
    ensures Read(s).Err? ==> Read(s).error == FileNotFound
    ensures s.data.Some? ==> Read(s) == Ok(s.data.value)
  {
  }

  /** The text views agree with the byte view: both fail together, and the text is the decoded bytes. */
  lemma TextViewAgreesWithBytes(s: FileState, cs: Charset)
    ensures ReadText(s, cs).Err? <==> Read(s).Err?
    ensures Read(s).Ok? ==> ReadText(s, cs) == Ok(cs.decode(Read(s).value))
  {
  }

  /** Every operation keeps the invariant that an empty file has stamp 0. */
  lemma ApplyPreservesValid(s: FileState, op: Op)
    requires s.Valid()
    ensures Apply(s, op).Valid()
  {
  }

  /**
   * Round trip: after a commit of `c` at `t`, whatever the previous state, reading yields
   * exactly `c` and the stamp is `t`; the old content is replaced wholesale.
   */
  lemma CommitThenRead(s: FileState, c: seq<bv8>, t: Long)
    ensures Read(Apply(s, Commit(c, t))) == Ok(c)
    ensures Apply(s, Commit(c, t)).lastModified == t
  {
  }

  /** Writing text and reading it back gives the text whenever the charset round-trips it. */
  lemma WriterThenReader(s: FileState, text: string, t: Long, cs: Charset)
    requires cs.decode(cs.encode(text)) == text
    ensures ReadText(Apply(s, Commit(cs.encode(text), t)), cs) == Ok(text)
  {
  }

  /** Delete resets the state, makes reads fail, and doing it twice is the same as once. */
  lemma DeleteResets(s: FileState)
    ensures Apply(s, Erase) == Empty
    ensures Read(Apply(s, Erase)) == Err(FileNotFound)
    ensures Apply(Apply(s, Erase), Erase) == Apply(s, Erase)
  {
  }

  /** After a delete, a new write-and-close makes the file readable again with the new content. */
  lemma RewriteAfterDelete(s: FileState, c: seq<bv8>, t: Long)
    ensures Read(Run(s, [Erase, Commit(c, t)])) == Ok(c)
    ensures Run(s, [Erase, Commit(c, t)]).lastModified == t
  {
    var ops := [Erase, Commit(c, t)];
    assert ops[1..] == [Commit(c, t)] && ops[1..][1..] == [];
    assert Run(s, ops) == Run(Empty, [Commit(c, t)]) == FileState(Some(c), t);
  }

  /** Running a history and then one more operation is applying that operation to the result. */
  lemma {:induction false} RunSnoc(s: FileState, ops: seq<Op>, op: Op)
    ensures Run(s, ops + [op]) == Apply(Run(s, ops), op)
    decreases |ops|
  {
    if ops == [] {
      assert [] + [op] == [op];
    } else {
      assert (ops + [op])[0] == ops[0];
      assert (ops + [op])[1..] == ops[1..] + [op];
      RunSnoc(Apply(s, ops[0]), ops[1..], op);
    }
  }

  /**
   * Only the last close or delete matters: the state after any history is that operation's
   * result, and a history of streams that were never closed changes nothing.
   */
  lemma {:induction false} RunIsLastMutation(s: FileState, ops: seq<Op>)
    ensures Run(s, ops) == match LastMutation(ops) case None => s case Some(op) => Apply(s, op)
    decreases |ops|
  {
    if ops != [] {
      var init, last := ops[..|ops| - 1], ops[|ops| - 1];
      assert ops == init + [last];
      RunSnoc(s, init, last);
      RunIsLastMutation(s, init);
    }
  }

  /** Every history keeps the invariant. */
  lemma {:induction false} RunPreservesValid(s: FileState, ops: seq<Op>)
    requires s.Valid()
    ensures Run(s, ops).Valid()
    decreases |ops|
  {
    if ops != [] {
      ApplyPreservesValid(s, ops[0]);
      RunPreservesValid(Apply(s, ops[0]), ops[1..]);
    }
  }

  /** An in-memory file object, keyed by its URI, whose content lives in its own fields. */
  class InMemoryJavaFileObject {
    const uri: Uri
    const kind: Kind
    /** `Charset.defaultCharset()`, fixed for the object's whole life. */
    const charset: Charset
    var data: Option<seq<bv8>>
    var lastModified: Long

    function State(): FileState
      reads this
    {
      FileState(data, lastModified)
    }

    ghost predicate Valid()
      reads this
    {
      State().Valid()
    }

    /** A new object for `uri`, whose kind is deduced from the URI; it starts empty. */
    constructor(uri: Uri, deduceKind: Uri -> Kind, charset: Charset)
      ensures this.uri == uri && kind == deduceKind(uri) && this.charset == charset
      ensures State() == Empty && Valid()
    {
      this.uri := uri;
      this.kind := deduceKind(uri);
      this.charset := charset;
      data := None;
      lastModified := 0;
    }

    /** The bytes an input stream on this file would yield, or not-found while there are none. */
    method OpenInputStream() returns (r: Result<seq<bv8>, IoError>)
      ensures r == Read(State())
    {
      if data.Some? {
        r := Ok(data.value);
      } else {
        r := Err(FileNotFound);
      }
    }

    /** A new, empty output stream whose `Close` commits to this file; this file does not change. */
    method OpenOutputStream() returns (out: ByteArrayOutputStream)
      ensures fresh(out) && out.owner == this && out.buffer == []
    {
      out := new ByteArrayOutputStream(this);
    }

    /** The text a reader on this file would yield, decoded with the default charset. */
    method OpenReader(ignoreEncodingErrors: bool) returns (r: Result<string, IoError>)
      ensures r == ReadText(State(), charset)
    {
      if data.Some? {
        r := Ok(charset.decode(data.value));
      } else {
        r := Err(FileNotFound);
      }
    }

    /** The whole content as text, decoded with the default charset. */
    method GetCharContent(ignoreEncodingErrors: bool) returns (r: Result<string, IoError>)
      ensures r == ReadText(State(), charset)
    {
      if data.Some? {
        r := Ok(charset.decode(data.value));
      } else {
        r := Err(FileNotFound);
      }
    }

    /** A new, empty writer whose `Close` commits to this file; this file does not change. */
    method OpenWriter() returns (w: StringWriter)
      ensures fresh(w) && w.owner == this && w.text == []
    {
      w := new StringWriter(this);
    }

    /** The stamp of the last committed write; 0 while the file has no content. */
    method GetLastModified() returns (t: Long)
      requires Valid()
      ensures t == State().lastModified
      ensures data.None? ==> t == 0
    {
      t := lastModified;
    }

    /** Takes the file back to the empty state; always succeeds. */
    method Delete() returns (ok: bool)
      modifies this
      ensures ok
      ensures State() == Apply(old(State()), Erase) && Valid()
    {
      data := None;
      lastModified := 0;
      ok := true;
    }
  }

  /**
   * The byte stream `openOutputStream` hands out: bytes accumulate in a private buffer,
   * and only `Close` touches the owning file.
   */
  class ByteArrayOutputStream {
    const owner: InMemoryJavaFileObject
    var buffer: seq<bv8>

    constructor(owner: InMemoryJavaFileObject)
      ensures this.owner == owner && buffer == []
    {
      this.owner := owner;
      buffer := [];
    }

    /** Appends bytes to the buffer; the owning file is not changed. */
    method Write(bytes: seq<bv8>)
      modifies this
      ensures buffer == old(buffer) + bytes
    {
      buffer := buffer + bytes;
    }

    /** Commits the buffered bytes to the owner, replacing its content, stamped with the clock value `now`. */
    method Close(now: Long)
      modifies owner
      ensures owner.State() == Apply(old(owner.State()), Commit(buffer, now))
      ensures owner.Valid()
    {
      owner.data := Some(buffer);
      owner.lastModified := now;
    }
  }

  /**
   * The writer `openWriter` hands out: text accumulates in a private buffer, and only
   * `Close` touches the owning file, storing the text encoded with the default charset.
   */
  class StringWriter {
    const owner: InMemoryJavaFileObject
    var text: string

    constructor(owner: InMemoryJavaFileObject)
      ensures this.owner == owner && text == []
    {
      this.owner := owner;
      text := [];
    }

    /** Appends text to the buffer; the owning file is not changed. */
    method Write(s: string)
      modifies this
      ensures text == old(text) + s
    {
      text := text + s;
    }

    /**
     * Commits the text, encoded with the owner's default charset, to the owner, replacing
     * its content, stamped with the clock value `now`.
     */
    method Close(now: Long)
      modifies owner
      ensures owner.State() == Apply(old(owner.State()), Commit(owner.charset.encode(text), now))
      ensures owner.Valid()
    {
      owner.data := Some(owner.charset.encode(text));
      owner.lastModified := now;
    }
  }
}
