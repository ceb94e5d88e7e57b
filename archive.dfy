/**
 * The archive the generated files are written to: a ZipOutputStream over an
 * in-memory byte buffer, seen as the sequence of (path, content) entries it
 * has accepted and whether it has been closed. Compression and byte encoding
 * are not modelled.
 */
module Archive {
  import opened Wrappers

  datatype Entry = Entry(name: string, content: string)

  /**
   * The IOExceptions putNextEntry can raise when the sink is a byte buffer,
   * which never fails itself: the stream is already closed, or an entry of
   * the same name was written before (a ZipException).
   */
  datatype IoError = StreamClosed | DuplicateEntry(name: string)

  function NameSet(es: seq<Entry>): set<string> {
    set e | e in es :: e.name
  }

  predicate NamesDistinct(es: seq<Entry>) {
    forall i, j :: 0 <= i < j < |es| ==> es[i].name != es[j].name
  }

  /** Whether, and why, the stream refuses a new entry called `name`. */
  function PutError(entries: seq<Entry>, closed: bool, name: string): (e: Option<IoError>)
    ensures e.None? <==> !closed && forall i :: 0 <= i < |entries| ==> entries[i].name != name
    ensures e == Some(StreamClosed) <==> closed
    ensures !closed && e.Some? ==> e == Some(DuplicateEntry(name))
  {
    if closed then Some(StreamClosed)
    else if name in NameSet(entries) then Some(DuplicateEntry(name))
    else None
  }

  datatype WriteOutcome = WriteOutcome(entries: seq<Entry>, failure: Option<IoError>)

  /**
   * Writing a batch entry by entry: the first refused entry stops the batch,
   * and the entries accepted before it stay in the stream.
   */
  function WriteAll(entries: seq<Entry>, closed: bool, batch: seq<Entry>): WriteOutcome
    decreases |batch|
  {
    if batch == [] then WriteOutcome(entries, None)
    else match PutError(entries, closed, batch[0].name)
      case Some(e) => WriteOutcome(entries, Some(e))
      case None => WriteAll(entries + [batch[0]], closed, batch[1..])
  }

  /**
   * What a batch write leaves behind: the old entries untouched, followed by a
   * prefix of the batch in batch order; all of it exactly when nothing failed,
   * and otherwise the failure is the refusal of the first entry not written.
   */
  lemma {:induction false} WriteAllExtends(entries: seq<Entry>, closed: bool, batch: seq<Entry>)
    ensures var w := WriteAll(entries, closed, batch);
      && |entries| <= |w.entries| <= |entries| + |batch|
      && w.entries == entries + batch[..|w.entries| - |entries|]
      && (w.failure.None? <==> |w.entries| == |entries| + |batch|)
      && (w.failure.Some? ==>
            w.failure == PutError(w.entries, closed, batch[|w.entries| - |entries|].name))
    decreases |batch|
  {
    if batch != [] && PutError(entries, closed, batch[0].name).None? {
      WriteAllExtends(entries + [batch[0]], closed, batch[1..]);
      var w := WriteAll(entries, closed, batch);
      var k := |w.entries| - |entries|;
      assert batch[..k] == [batch[0]] + batch[1..][..k - 1];
      if k < |batch| {
        assert batch[k] == batch[1..][k - 1];
      }
    }
  }

  lemma NamesDistinctSnoc(es: seq<Entry>, e: Entry)
    requires NamesDistinct(es)
    ensures NamesDistinct(es + [e]) <==> forall i :: 0 <= i < |es| ==> es[i].name != e.name
  {
    if forall i :: 0 <= i < |es| ==> es[i].name != e.name {
      forall i, j | 0 <= i < j < |es + [e]| ensures (es + [e])[i].name != (es + [e])[j].name {
        if j == |es| {
          assert (es + [e])[j] == e;
        }
      }
    } else {
      var i :| 0 <= i < |es| && es[i].name == e.name;
      assert (es + [e])[i].name == (es + [e])[|es|].name;
    }
  }

  lemma NamesDistinctPrefix(es: seq<Entry>, rest: seq<Entry>)
    requires NamesDistinct(es + rest)
    ensures NamesDistinct(es)
  {
    forall i, j | 0 <= i < j < |es| ensures es[i].name != es[j].name {
      assert (es + rest)[i] == es[i] && (es + rest)[j] == es[j];
    }
  }

  /**
   * Into a stream whose entry names are distinct, a batch is written in full
   * exactly when the stream is open (or the batch empty) and the entry names
   * stay distinct: no name repeats within the batch or an earlier entry.
   */
  lemma {:induction false} WriteAllSucceedsIff(entries: seq<Entry>, closed: bool, batch: seq<Entry>)
    requires NamesDistinct(entries)
    ensures WriteAll(entries, closed, batch).failure.None? <==>
              (closed ==> batch == []) && NamesDistinct(entries + batch)
    decreases |batch|
  {
    if batch == [] {
      assert entries + batch == entries;
    } else {
      var next := entries + [batch[0]];
      assert entries + batch == next + batch[1..];
      NamesDistinctSnoc(entries, batch[0]);
      if PutError(entries, closed, batch[0].name).None? {
        WriteAllSucceedsIff(next, closed, batch[1..]);
      } else if !closed {
        if NamesDistinct(entries + batch) {
          NamesDistinctPrefix(next, batch[1..]);
        }
      }
    }
  }

  /** The stream itself: a Java object the service writes into and closes. */
  class ZipArchive {
    var entries: seq<Entry>
    var closed: bool
    /** How many times close has been called on the stream. */
    ghost var closeCount: nat

    ghost predicate Valid()
      reads this
    {
      NamesDistinct(entries) && (closed <==> closeCount > 0)
    }

    constructor ()
      ensures Valid()
      ensures entries == [] && !closed && closeCount == 0
    {
      entries := [];
      closed := false;
      closeCount := 0;
    }

    /**
     * putNextEntry, write and closeEntry of one file: the entry is appended
     * unless the stream refuses it, in which case nothing changes.
     */
    method WriteEntry(name: string, content: string) returns (err: Option<IoError>)
      requires Valid()
      modifies this
      ensures Valid()
      ensures err == PutError(old(entries), old(closed), name)
      ensures entries == if err.None? then old(entries) + [Entry(name, content)] else old(entries)
      ensures closed == old(closed) && closeCount == old(closeCount)
    {
      err := PutError(entries, closed, name);
      if err.None? {
        NamesDistinctSnoc(entries, Entry(name, content));
        entries := entries + [Entry(name, content)];
      }
    }

    /** Closing the stream; the entries written so far are its final content. */
    method Close()
      requires Valid()
      modifies this
      ensures Valid()
      ensures closed && entries == old(entries) && closeCount == old(closeCount) + 1
    {
      closed := true;
      closeCount := closeCount + 1;
    }
  }
}
