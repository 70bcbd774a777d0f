/**
 Transparent decoding of downloads: the first bytes of the stream decide whether
 it is passed through or fed to the XZ decompressor.
 */
module XzProbe {
  import opened Prelude

  /** Section 2.1.1.1 of The .xz File Format 1.0.4. */
  const MAGIC: seq<Byte> := [0xFD, 0x37, 0x7A, 0x58, 0x5A, 0x00]

  datatype State = Probing(pos: nat) | PlainText | Compressed

  function Concat(chunks: seq<seq<Byte>>): seq<Byte> {
    if chunks == [] then [] else Concat(chunks[..|chunks| - 1]) + chunks[|chunks| - 1]
  }

  lemma ConcatAppend(chunks: seq<seq<Byte>>, chunk: seq<Byte>)
    ensures Concat(chunks + [chunk]) == Concat(chunks) + chunk
  {
    assert (chunks + [chunk])[..|chunks|] == chunks;
  }

  /** The state a stream leads to, however it was cut. */
  function StateOf(stream: seq<Byte>): State {
    if |stream| < |MAGIC| && stream == MAGIC[..|stream|] then Probing(|stream|)
    else if MAGIC <= stream then Compressed
    else PlainText
  }

  /** Bytes that do not match where they would continue the header decide for plain text. */
  lemma MismatchIsPlain(pos: nat, chunk: seq<Byte>, len: nat)
    requires pos < |MAGIC| && len <= |chunk| && pos + len <= |MAGIC| && MAGIC[pos..pos + len] != chunk[..len]
    ensures StateOf(MAGIC[..pos] + chunk) == PlainText
  {
    var stream := MAGIC[..pos] + chunk;
    var k :| 0 <= k < len && MAGIC[pos..pos + len][k] != chunk[..len][k];
    assert stream[pos + k] == chunk[k] != MAGIC[pos + k];
  }

  lemma MatchContinues(pos: nat, chunk: seq<Byte>, len: nat)
    requires pos < |MAGIC| && len == (if |MAGIC| - pos <= |chunk| then |MAGIC| - pos else |chunk|)
    requires MAGIC[pos..pos + len] == chunk[..len]
    ensures StateOf(MAGIC[..pos] + chunk) == if pos + len == |MAGIC| then Compressed else Probing(pos + len)
    ensures pos + len < |MAGIC| ==> MAGIC[..pos] + chunk == MAGIC[..pos + len]
  {
    assert MAGIC[..pos + len] == MAGIC[..pos] + MAGIC[pos..pos + len];
    assert (MAGIC[..pos] + chunk)[..pos + len] == MAGIC[..pos] + chunk[..len];
  }

  /** A decided stream stays decided. */
  lemma DecidedStays(stream: seq<Byte>, chunk: seq<Byte>)
    requires !StateOf(stream).Probing?
    ensures StateOf(stream + chunk) == StateOf(stream)
  {
    if StateOf(stream) == PlainText {
      if |stream| < |MAGIC| {
        var k :| 0 <= k < |stream| && stream[k] != MAGIC[..|stream|][k];
        assert (stream + chunk)[k] != MAGIC[k];
      } else {
        assert stream[..|MAGIC|] != MAGIC;
        assert (stream + chunk)[..|MAGIC|] == stream[..|MAGIC|];
      }
    }
  }

  class AutoXzDecoder {
    var state: State
    /** Bytes written to the file as they are. */
    var plain: seq<Byte>
    /** Chunks handed to the decompressor; the empty one is the end of its input. */
    var fed: seq<seq<Byte>>

    /** The bytes passed on, to the one place that fits the state. */
    ghost function Sent(): seq<Byte>
      reads this
    {
      if state == Compressed then Concat(fed) else plain
    }

    /** Nothing went to the wrong place, and no empty chunk to the decompressor. */
    ghost predicate Tidy()
      reads this
    {
      && (state != PlainText ==> plain == []) && (state != Compressed ==> fed == [])
      && (forall i :: 0 <= i < |fed| ==> fed[i] != [])
    }

    /** `stream` has been written so far, and none of it is lost. */
    ghost predicate Holds(stream: seq<Byte>)
      reads this
    {
      state == StateOf(stream) && Tidy() && Sent() == if state.Probing? then [] else stream
    }

    constructor ()
      ensures Holds([])
    {
      state, plain, fed := Probing(0), [], [];
    }

    /** How many bytes of the magic come before `chunk`, or nothing if `chunk` has been dealt with. */
    method Probe(chunk: seq<Byte>, ghost stream: seq<Byte>) returns (before: Option<nat>)
      requires Holds(stream)
      modifies this`state
      ensures state == StateOf(stream + chunk)
      ensures before.None? <==> chunk == [] || state.Probing?
      ensures before.Some? ==>
                && before.value <= |MAGIC|
                && (if old(state).Probing? then stream == MAGIC[..before.value] else before.value == 0)
    {
      if chunk == [] {
        assert stream + chunk == stream;
        return None;
      }
      match state
      case Probing(pos) =>
        assert stream == MAGIC[..pos];
        var len := if |MAGIC| - pos <= |chunk| then |MAGIC| - pos else |chunk|;
        if MAGIC[pos..pos + len] != chunk[..len] {
          MismatchIsPlain(pos, chunk, len);
          state := PlainText;
          before := Some(pos);
        } else {
          MatchContinues(pos, chunk, len);
          if pos + len == |MAGIC| {
            state := Compressed;
            before := Some(pos);
          } else {
            state := Probing(pos + len);
            before := None;
          }
        }
      case _ =>
        DecidedStays(stream, chunk);
        before := Some(0);
    }

    /** Not called while probing, nor with an empty chunk. */
    method WriteAllImpl(chunk: seq<Byte>)
      requires !state.Probing? && chunk != [] && Tidy()
      modifies this`plain, this`fed
      ensures Tidy() && Sent() == old(Sent()) + chunk
    {
      match state
      case Probing(_) => assert false;
      case PlainText => plain := plain + chunk;
      case Compressed =>
        ConcatAppend(fed, chunk);
        fed := fed + [chunk];
    }

    method WriteAll(chunk: seq<Byte>, ghost stream: seq<Byte>)
      requires Holds(stream)
      modifies this
      ensures Holds(stream + chunk)
    {
      var before := Probe(chunk, stream);
      if before.Some? {
        if before.value != 0 {
          WriteAllImpl(MAGIC[..before.value]);
        }
        assert Sent() == stream;
        WriteAllImpl(chunk);
      } else {
        assert chunk == [] ==> stream + chunk == stream;
      }
    }

    /** Everything ends up in the file or in the decompressor, which is told of the end exactly then. */
    method Finish(ghost stream: seq<Byte>)
      requires Holds(stream)
      modifies this`plain, this`fed
      ensures if MAGIC <= stream
              then plain == [] && Concat(fed) == stream && fed == old(fed) + [[]]
              else plain == stream && fed == []
    {
      match state
      case Probing(pos) => plain := plain + MAGIC[..pos];
      case PlainText =>
      case Compressed =>
        ConcatAppend(fed, []);
        fed := fed + [[]];
    }
  }

  /** What reaches the file or the decompressor depends on the bytes of the stream and not on how they were cut. */
  method Download(chunks: seq<seq<Byte>>) returns (plain: seq<Byte>, fed: seq<seq<Byte>>)
    ensures MAGIC <= Concat(chunks) ==>
              && plain == [] && Concat(fed) == Concat(chunks)
              && fed != [] && fed[|fed| - 1] == [] && (forall i :: 0 <= i < |fed| - 1 ==> fed[i] != [])
    ensures !(MAGIC <= Concat(chunks)) ==> plain == Concat(chunks) && fed == []
  {
    var out := new AutoXzDecoder();
    for i := 0 to |chunks|
      invariant out.Holds(Concat(chunks[..i]))
    {
      ConcatAppend(chunks[..i], chunks[i]);
      assert chunks[..i + 1] == chunks[..i] + [chunks[i]];
      out.WriteAll(chunks[i], Concat(chunks[..i]));
    }
    assert chunks[..|chunks|] == chunks;
    out.Finish(Concat(chunks));
    plain, fed := out.plain, out.fed;
  }
}
