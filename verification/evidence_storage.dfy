/**
 The evidence store (funding/storage.ts): an upload arrives as a stream of chunks, is written to a file
 that must not exist yet, and is kept only if it has the promised length and the magic bytes of its type.
 */
module EvidenceStorage {
  newtype Byte = b: int | 0 <= b < 0x100

  /** The three accepted types; `Other` is any other declared content type. */
  datatype ContentType = Pdf | Png | Jpeg | Other

  datatype Verdict = Stored | TooLarge | AlreadyUploaded | SizeMismatch | SignatureMismatch | SourceFailed

  function Magic(contentType: ContentType): seq<Byte> {
    match contentType
    case Pdf => [0x25, 0x50, 0x44, 0x46, 0x2d]
    case Png => [0x89, 0x50, 0x4e, 0x47, 0x0d, 0x0a, 0x1a, 0x0a]
    case Jpeg => [0xff, 0xd8, 0xff]
    case Other => []
  }

  /** The bytes begin as a file of this type must. */
  predicate Signed(contentType: ContentType, bytes: seq<Byte>) {
    contentType != Other && Magic(contentType) <= bytes
  }

  function Concat(chunks: seq<seq<Byte>>): (bytes: seq<Byte>) {
    if chunks == [] then [] else chunks[0] + Concat(chunks[1..])
  }

  /** What becomes of an upload depends on the bytes it carries, not on how they were split. */
  function Judge(taken: bool, bytes: seq<Byte>, breaks: bool, expected: int, maximum: int, contentType: ContentType): Verdict {
    if expected < 1 || expected > maximum then TooLarge
    else if taken then AlreadyUploaded
    else if |bytes| > expected then TooLarge
    else if breaks then SourceFailed
    else if |bytes| != expected then SizeMismatch
    else if !Signed(contentType, bytes) then SignatureMismatch
    else Stored
  }

  lemma {:induction false} ConcatOfPrefix(chunks: seq<seq<Byte>>, k: nat)
    requires k < |chunks|
    ensures Concat(chunks[..k + 1]) == Concat(chunks[..k]) + chunks[k]
  {
    if k == 0 {
      assert chunks[..1] == [chunks[0]];
      assert Concat([chunks[0]][1..]) == [];
    } else {
      ConcatOfPrefix(chunks[1..], k - 1);
      assert chunks[..k + 1][1..] == chunks[1..][..k] && chunks[..k][1..] == chunks[1..][..k - 1];
    }
  }

  lemma {:induction false} ConcatJoins(front: seq<seq<Byte>>, back: seq<seq<Byte>>)
    ensures Concat(front + back) == Concat(front) + Concat(back)
  {
    if front == [] {
      assert front + back == back;
    } else {
      assert (front + back)[1..] == front[1..] + back;
      calc {
        Concat(front + back);
        front[0] + Concat(front[1..] + back);
        { ConcatJoins(front[1..], back); }
        front[0] + (Concat(front[1..]) + Concat(back));
        Concat(front) + Concat(back);
      }
    }
  }

  lemma AtLeastPrefix(chunks: seq<seq<Byte>>, k: nat)
    requires k <= |chunks|
    ensures |Concat(chunks[..k])| <= |Concat(chunks)|
  {
    ConcatJoins(chunks[..k], chunks[k..]);
    assert chunks == chunks[..k] + chunks[k..];
  }

  /** Cutting any chunk in two at any place changes nothing. */
  lemma SplitDoesNotMatter(
      before: seq<seq<Byte>>, left: seq<Byte>, right: seq<Byte>, after: seq<seq<Byte>>,
      taken: bool, breaks: bool, expected: int, maximum: int, contentType: ContentType)
    ensures Judge(taken, Concat(before + [left + right] + after), breaks, expected, maximum, contentType) ==
            Judge(taken, Concat(before + [left, right] + after), breaks, expected, maximum, contentType)
  {
    hide Judge;
    ConcatJoins(before + [left + right], after);
    ConcatJoins(before, [left + right]);
    ConcatJoins(before + [left, right], after);
    ConcatJoins(before, [left, right]);
    ConcatJoins([left], [right]);
    assert [left] + [right] == [left, right];
    assert Concat(before) + Concat([left + right]) == Concat(before) + Concat([left, right]);
  }

  /** Stored exactly when all is well, and any other verdict names what is wrong. */
  lemma JudgeLaw(taken: bool, bytes: seq<Byte>, breaks: bool, expected: int, maximum: int, contentType: ContentType)
    ensures var verdict := Judge(taken, bytes, breaks, expected, maximum, contentType);
            && (verdict == Stored <==>
                  !taken && !breaks && 1 <= expected <= maximum && |bytes| == expected && Signed(contentType, bytes))
            && (verdict == TooLarge ==> expected < 1 || expected > maximum || |bytes| > expected)
            && (verdict == AlreadyUploaded ==> taken)
            && (verdict == SourceFailed ==> breaks)
            && (verdict == SizeMismatch ==> |bytes| < expected)
            && (verdict == SignatureMismatch ==> !Signed(contentType, bytes))
  {
  }

  /** What the magic numbers spell. */
  lemma MagicSpells()
    ensures forall i | 0 <= i < 5 :: Magic(Pdf)[i] as int == "%PDF-"[i] as int
    ensures forall i | 0 <= i < 3 :: Magic(Png)[1 + i] as int == "PNG"[i] as int
    ensures forall i | 0 <= i < 2 :: Magic(Png)[4 + i] as int == "\r\n"[i] as int
    ensures |Magic(Pdf)| == 5 && |Magic(Png)| == 8 && Magic(Png)[0] >= 0x80 && Magic(Png)[6] == 26 && Magic(Png)[7] == 10
    ensures |Magic(Jpeg)| == 3 && Magic(Jpeg)[0] == Magic(Jpeg)[2] == 255 && Magic(Jpeg)[1] == 216
  {
  }

  /** The buffer holds as many bytes from the start as fit, and zeros after them. */
  predicate PrefixHolds(prefix: seq<Byte>, filled: nat, bytes: seq<Byte>) {
    && |prefix| == 8
    && filled == (if |bytes| < 8 then |bytes| else 8)
    && prefix[..filled] == bytes[..filled]
    && forall j | filled <= j < 8 :: prefix[j] == 0
  }

  lemma EmptyPrefix(prefix: seq<Byte>)
    requires |prefix| == 8 && forall j | 0 <= j < 8 :: prefix[j] == 0
    ensures PrefixHolds(prefix, 0, [])
  {
    var none: seq<Byte> := [];
    assert prefix[..0] == none[..0];
  }

  lemma MagicHasNoZero(contentType: ContentType)
    ensures var m := Magic(contentType); |m| <= 8 && forall j | 0 <= j < |m| :: m[j] != 0
  {
  }

  /** The zero-filled buffer begins with a magic number only if the bytes themselves do. */
  lemma PaddedPrefix(bytes: seq<Byte>, prefix: seq<Byte>, n: nat, contentType: ContentType)
    requires PrefixHolds(prefix, n, bytes)
    ensures contentType != Other ==> (Signed(contentType, bytes) <==> Magic(contentType) <= prefix)
  {
    var m := Magic(contentType);
    MagicHasNoZero(contentType);
    hide Magic;
    if m <= prefix {
      assert n < 8 ==> prefix[n] == 0;
      assert forall j | 0 <= j < |m| :: prefix[j] == m[j] != 0;
      assert bytes[..|m|] == bytes[..n][..|m|] == prefix[..n][..|m|] == m;
    }
    if m <= bytes {
      assert prefix[..|m|] == prefix[..n][..|m|] == bytes[..n][..|m|] == m;
    }
  }

  class LocalEvidenceStorage {
    const maximumBytes: int
    var objects: map<nat, seq<Byte>>

    constructor (maximumBytes: int)
      ensures this.maximumBytes == maximumBytes && objects == map[]
    {
      this.maximumBytes := maximumBytes;
      objects := map[];
    }

    /**
     Write the chunks to a new file. `breaks` says that the source fails after its last chunk.
     Whatever happens, no other object changes, and unless the upload is stored nothing of it remains.
     */
    method WriteObject(key: nat, chunks: seq<seq<Byte>>, breaks: bool, expected: int, contentType: ContentType)
      returns (verdict: Verdict)
      modifies this
      ensures verdict == Judge(key in old(objects), Concat(chunks), breaks, expected, maximumBytes, contentType)
      ensures objects == if verdict == Stored then old(objects)[key := Concat(chunks)] else old(objects)
    {
      hide PrefixHolds;
      if expected < 1 || expected > maximumBytes {
        return TooLarge;
      }
      if key in objects {
        return AlreadyUploaded;
      }
      objects := objects[key := []];
      var written := 0;
      var prefix := new Byte[8](_ => 0);
      var prefixLength := 0;
      EmptyPrefix(prefix[..]);
      for k := 0 to |chunks|
        invariant key !in old(objects) && objects == old(objects)[key := Concat(chunks[..k])]
        invariant written == |Concat(chunks[..k])| <= expected
        invariant prefix.Length == 8 && PrefixHolds(prefix[..], prefixLength, Concat(chunks[..k]))
      {
        var chunk := chunks[k];
        ConcatOfPrefix(chunks, k);
        prefixLength := FillPrefix(prefix, prefixLength, chunk, Concat(chunks[..k]));
        written := written + |chunk|;
        if written > expected || written > maximumBytes {
          AtLeastPrefix(chunks, k + 1);
          objects := objects - {key};
          assert objects == old(objects);
          return TooLarge;
        }
        objects := objects[key := objects[key] + chunk];
      }
      assert chunks[..|chunks|] == chunks;
      if breaks || written != expected {
        objects := objects - {key};
        assert objects == old(objects);
        return if breaks then SourceFailed else SizeMismatch;
      }
      PaddedPrefix(Concat(chunks), prefix[..], prefixLength, contentType);
      var validSignature := MatchesType(prefix, contentType);
      if !validSignature {
        objects := objects - {key};
        assert objects == old(objects);
        return SignatureMismatch;
      }
      verdict := Stored;
    }

    /** Copy what still fits of this chunk into the prefix buffer, which holds the start of the bytes before it. */
    method FillPrefix(prefix: array<Byte>, prefixLength: nat, chunk: seq<Byte>, ghost before: seq<Byte>) returns (filled: nat)
      requires prefix.Length == 8 && PrefixHolds(prefix[..], prefixLength, before)
      modifies prefix
      ensures PrefixHolds(prefix[..], filled, before + chunk)
    {
      filled := prefixLength;
      if prefixLength < prefix.Length {
        var copyLength := if prefix.Length - prefixLength < |chunk| then prefix.Length - prefixLength else |chunk|;
        forall j | 0 <= j < copyLength {
          prefix[prefixLength + j] := chunk[j];
        }
        filled := prefixLength + copyLength;
      }
    }

    method MatchesType(prefix: array<Byte>, contentType: ContentType) returns (valid: bool)
      requires prefix.Length == 8
      ensures valid <==> contentType != Other && Magic(contentType) <= prefix[..]
    {
      valid :=
        || (contentType == Pdf && prefix[..5] == [0x25, 0x50, 0x44, 0x46, 0x2d])
        || (contentType == Png && prefix[..] == [0x89, 0x50, 0x4e, 0x47, 0x0d, 0x0a, 0x1a, 0x0a])
        || (contentType == Jpeg && prefix[0] == 0xff && prefix[1] == 0xd8 && prefix[2] == 0xff);
    }

    method DeleteObject(key: nat)
      modifies this
      ensures objects == old(objects) - {key}
    {
      objects := objects - {key};
    }
  }
}
