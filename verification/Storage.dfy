/** Saving uploads in quarantine storage (challenge_ingestion/storage.py): a read loop under a
    byte budget, for streams that may return fewer bytes than asked for. */
module Storage {
  import opened Bytes
  import Validation

  const CHUNK_BYTES := 1024 * 1024

  /** How a stream answers one read: with up to `n` bytes, with something that is not bytes,
      or with more than was asked for. */
  datatype Reply = Up(n: nat) | WrongType | Longer(extra: nat)

  datatype Chunk = Data(bytes: seq<Byte>) | NotBytes

  function Least(a: nat, b: nat): nat {
    if a <= b then a else b
  }

  class Stream {
    var rest: seq<Byte>
    var turn: nat
    const replies: nat -> Reply

    constructor (content: seq<Byte>, replies: nat -> Reply)
      ensures rest == content && turn == 0 && this.replies == replies
    {
      rest, turn := content, 0;
      this.replies := replies;
    }

    /** At least one byte while there are any, whatever the pattern of short reads. */
    method Read(amount: nat) returns (chunk: Chunk)
      requires amount > 0
      modifies this
      ensures turn == old(turn) + 1
      ensures chunk.NotBytes? ==> rest == old(rest) && replies(old(turn)).WrongType?
      ensures chunk.Data? ==> old(rest) == chunk.bytes + rest && (chunk.bytes == [] <==> old(rest) == [])
      ensures chunk.Data? && |chunk.bytes| > amount ==> replies(old(turn)).Longer?
    {
      match replies(turn) {
        case Up(n) =>
          var m := Least(Least(if n == 0 then 1 else n, amount), |rest|);
          chunk := Data(rest[..m]);
          rest := rest[m..];
        case WrongType =>
          chunk := NotBytes;
        case Longer(extra) =>
          var m := Least(amount + 1 + extra, |rest|);
          chunk := Data(rest[..m]);
          rest := rest[m..];
      }
      turn := turn + 1;
    }
  }

  /** The stream returns bytes, and never more than asked for. */
  ghost predicate Honest(replies: nat -> Reply) {
    forall k :: replies(k).Up?
  }

  /** A budget is the least of the ceiling, the caller's maximum and the bytes left. */
  function Budget(maxBytes: nat, remaining: nat): nat {
    Least(Validation.MAX_IMAGE_BYTES, Least(maxBytes, remaining))
  }

  /** `n` bytes are within the ceiling of an image and both limits of the caller. */
  predicate Fits(n: nat, maxBytes: int, remaining: int) {
    n <= 20 * 1024 * 1024 * 1024 && n <= maxBytes && n <= remaining
  }

  datatype Saved = Stored(key: string, size: nat, content: seq<Byte>) | TooLarge | Unsafe | Invalid | Collision

  class Quarantine {
    var directory: map<string, seq<Byte>>

    constructor ()
      ensures directory == map[]
    {
      directory := map[];
    }

    /** The stream is written to a temporary name and then linked to its key.  The content
        stands for its digest. */
    method Save(stream: Stream, remaining: int, maxBytes: int, temporary: string, key: string) returns (r: Saved)
      requires temporary != key
      modifies this, stream
      ensures r.Invalid? <==> maxBytes < 0 || remaining < 0
      ensures r.Stored? ==> r == Stored(key, |old(stream.rest)|, old(stream.rest)) && key !in old(directory)
                            && Fits(|old(stream.rest)|, maxBytes, remaining)
      ensures directory == if r.Stored? then old(directory)[key := old(stream.rest)] else old(directory)
      ensures Honest(stream.replies) && !r.Invalid? ==>
                && |old(stream.rest)| <= |stream.rest| + Budget(maxBytes, remaining) + 1
                && (r.Stored? <==> Fits(|old(stream.rest)|, maxBytes, remaining)
                                   && temporary !in old(directory) && key !in old(directory))
                && (r.TooLarge? <==> !Fits(|old(stream.rest)|, maxBytes, remaining) && temporary !in old(directory))
    {
      if maxBytes < 0 || remaining < 0 {
        return Invalid;
      }
      var limit := Budget(maxBytes, remaining);
      if temporary in directory {
        return Collision;
      }
      var read, size := Receive(stream, limit, temporary);
      if !read.Stored? {
        directory := directory - {temporary};
        return read;
      }
      var written := directory[temporary];
      if key in directory {
        directory := directory - {temporary};
        return Collision;
      }
      directory := directory[key := written] - {temporary};
      return Stored(key, size, written);
    }

    /** The read loop: chunk after chunk is appended to the temporary name, until the stream
        ends, exceeds the budget or misbehaves. */
    method Receive(stream: Stream, limit: nat, temporary: string) returns (r: Saved, size: nat)
      requires temporary !in directory
      modifies this, stream
      ensures temporary in directory && directory - {temporary} == old(directory)
      ensures r.Stored? || r.TooLarge? || r.Unsafe?
      ensures r.Stored? ==> directory[temporary] == old(stream.rest) && size == |old(stream.rest)| <= limit
      ensures Honest(stream.replies) ==> !r.Unsafe? && (r.Stored? <==> |old(stream.rest)| <= limit)
                                         && |old(stream.rest)| <= |stream.rest| + limit + 1
    {
      ghost var before, content := directory, stream.rest;
      size := 0;
      directory := directory[temporary := []];
      assert directory - {temporary} == before;
      while true
        invariant temporary in directory && size == |directory[temporary]| <= limit
        invariant directory - {temporary} == before
        invariant content == directory[temporary] + stream.rest
        decreases |stream.rest|
      {
        var amount := Least(CHUNK_BYTES, limit - size + 1);
        var chunk := stream.Read(amount);
        if chunk.NotBytes? || |chunk.bytes| > amount {
          return Unsafe, size;
        }
        if chunk.bytes == [] {
          return Stored(temporary, size, directory[temporary]), size;
        }
        size := size + |chunk.bytes|;
        if size > limit {
          return TooLarge, size;
        }
        ghost var d := directory;
        AppendChunk(content, directory[temporary], chunk.bytes, stream.rest);
        directory := directory[temporary := directory[temporary] + chunk.bytes];
        assert directory - {temporary} == d - {temporary};
      }
    }

    /** A distinct object with the same bytes. */
    method Copy(source: string, remaining: int, maxBytes: int, temporary: string, key: string) returns (r: Saved)
      requires temporary != key && source in directory
      modifies this
      ensures directory == if r.Stored? then old(directory)[key := old(directory)[source]] else old(directory)
      ensures r.Stored? ==> key != source && directory[source] == directory[key]
      ensures maxBytes >= 0 && remaining >= 0 && temporary !in old(directory) && key !in old(directory) ==>
                (r.Stored? <==> Fits(|old(directory)[source]|, maxBytes, remaining))
    {
      var stream := new Stream(directory[source], (k: nat) => Up(CHUNK_BYTES));
      r := Save(stream, remaining, maxBytes, temporary, key);
    }

    /** False when the object is absent already. */
    method Delete(key: string) returns (deleted: bool)
      modifies this
      ensures deleted == (key in old(directory)) && directory == old(directory) - {key}
    {
      deleted := key in directory;
      directory := directory - {key};
    }
  }

  lemma AppendChunk(content: seq<Byte>, written: seq<Byte>, chunk: seq<Byte>, rest: seq<Byte>)
    requires content == written + (chunk + rest)
    ensures content == written + chunk + rest
  {
  }
}
