/**
 Reading a growing file in bounded turns. Whatever the turns and read sizes, what comes out is
 the longest newline-terminated prefix of the bytes read, the rest is held back, and an over-long
 record is refused exactly when there is one.
 */
module Cursor {
  import opened Prelude

  type Byte = x: int | 0 <= x < 256

  const NEWLINE: Byte := 10

  /** The longest prefix that ends with a newline. */
  function Complete(s: seq<Byte>): (r: seq<Byte>)
    ensures r <= s
  {
    if s == [] then [] else if s[|s| - 1] == NEWLINE then s else Complete(s[..|s| - 1])
  }

  /** The unfinished record after it. */
  function Rest(s: seq<Byte>): seq<Byte> {
    s[|Complete(s)|..]
  }

  /** Bytes i to j are one record with its newline, or the unfinished one. */
  ghost predicate IsRecord(s: seq<Byte>, i: nat, j: nat) {
    && i < j <= |s| && (i == 0 || s[i - 1] == NEWLINE)
    && (forall k :: i <= k < j - 1 ==> s[k] != NEWLINE)
    && (j == |s| || s[j - 1] == NEWLINE)
  }

  ghost predicate TooLong(s: seq<Byte>, limit: nat) {
    exists i: nat, j: nat :: IsRecord(s, i, j) && j - i > limit
  }

  // ----- one byte at a time

  lemma {:induction false} RestFacts(s: seq<Byte>)
    ensures forall k :: 0 <= k < |Rest(s)| ==> Rest(s)[k] != NEWLINE
    ensures Complete(s) != [] ==> Complete(s)[|Complete(s)| - 1] == NEWLINE
    ensures s == Complete(s) + Rest(s)
  {
    if s != [] && s[|s| - 1] != NEWLINE {
      var t := s[..|s| - 1];
      RestFacts(t);
      assert Rest(s) == Rest(t) + [s[|s| - 1]];
    }
  }

  lemma AppendByte(s: seq<Byte>, x: Byte)
    ensures Complete(s + [x]) == if x == NEWLINE then s + [x] else Complete(s)
    ensures Rest(s + [x]) == if x == NEWLINE then [] else Rest(s) + [x]
  {
    assert (s + [x])[..|s|] == s;
  }

  /** The last record of s + [x] is the rest of s, grown by x. */
  lemma LastRecord(s: seq<Byte>, x: Byte)
    ensures IsRecord(s + [x], |Complete(s)|, |s| + 1)
  {
    RestFacts(s);
    var i := |Complete(s)|;
    forall k | i <= k < |s| ensures (s + [x])[k] != NEWLINE {
      assert (s + [x])[k] == Rest(s)[k - i];
    }
  }

  lemma TooLongAppend(s: seq<Byte>, x: Byte, limit: nat)
    requires !TooLong(s, limit)
    ensures TooLong(s + [x], limit) <==> |Rest(s)| + 1 > limit
  {
    var t := s + [x];
    LastRecord(s, x);
    RestFacts(s);
    if TooLong(t, limit) {
      var i: nat, j: nat :| IsRecord(t, i, j) && j - i > limit;
      if j == |t| {
        OneStart(s, x, i);
      } else {
        assert forall k :: 0 <= k < j ==> s[k] == t[k];
        assert IsRecord(s, i, j);
      }
    }
  }

  /** An unfinished record starts where the complete prefix ends. */
  lemma OneStart(s: seq<Byte>, x: Byte, i: nat)
    requires IsRecord(s + [x], i, |s| + 1)
    ensures i == |Complete(s)|
  {
    RestFacts(s);
    var c := |Complete(s)|;
    assert c > 0 ==> (s + [x])[c - 1] == NEWLINE;
    forall k | c <= k < |s| ensures (s + [x])[k] != NEWLINE {
      assert (s + [x])[k] == Rest(s)[k - c];
    }
  }

  lemma TooLongPrefix(s: seq<Byte>, x: Byte, limit: nat)
    requires TooLong(s, limit)
    ensures TooLong(s + [x], limit)
  {
    var i: nat, j: nat :| IsRecord(s, i, j) && j - i > limit;
    var t := s + [x];
    if j == |s| && s[j - 1] != NEWLINE {
      assert IsRecord(t, i, |t|);
    } else {
      assert IsRecord(t, i, j);
    }
  }

  // ----- splitting off what was read before

  lemma {:induction false} Split(a: seq<Byte>, b: seq<Byte>, limit: nat)
    ensures Complete(a + b) == Complete(a) + Complete(Rest(a) + b)
    ensures Rest(a + b) == Rest(Rest(a) + b)
    ensures !TooLong(a, limit) ==> (TooLong(a + b, limit) <==> TooLong(Rest(a) + b, limit))
    ensures TooLong(a, limit) ==> TooLong(a + b, limit)
    decreases |b|
  {
    hide TooLong, Complete, Rest;
    if b == [] {
      assert a + b == a && Rest(a) + b == Rest(a);
      RestIsRest(a, limit);
    } else {
      var c, x := b[..|b| - 1], b[|b| - 1];
      Split(a, c, limit);
      assert a + b == (a + c) + [x] && Rest(a) + b == (Rest(a) + c) + [x];
      AppendByte(a + c, x);
      AppendByte(Rest(a) + c, x);
      RestFacts(a);
      GrowBoth(a + c, Rest(a) + c, x, limit);
      Associate(Complete(a), Rest(a), c, x);
      if TooLong(a, limit) {
        TooLongPrefix(a + c, x, limit);
      }
    }
  }

  lemma Associate(p: seq<Byte>, q: seq<Byte>, c: seq<Byte>, x: Byte)
    ensures p + q + c + [x] == p + (q + c + [x])
  {
  }

  lemma GrowBoth(s: seq<Byte>, t: seq<Byte>, x: Byte, limit: nat)
    requires Rest(s) == Rest(t)
    ensures (TooLong(s, limit) <==> TooLong(t, limit)) ==> (TooLong(s + [x], limit) <==> TooLong(t + [x], limit))
  {
    hide TooLong, Rest;
    if TooLong(s, limit) {
      TooLongPrefix(s, x, limit);
    } else {
      TooLongAppend(s, x, limit);
    }
    if TooLong(t, limit) {
      TooLongPrefix(t, x, limit);
    } else {
      TooLongAppend(t, x, limit);
    }
  }

  lemma {:induction false} NothingComplete(s: seq<Byte>)
    requires forall k :: 0 <= k < |s| ==> s[k] != NEWLINE
    ensures Complete(s) == [] && Rest(s) == s
  {
    if s != [] {
      NothingComplete(s[..|s| - 1]);
    }
  }

  lemma RestIsRecord(a: seq<Byte>)
    requires Rest(a) != []
    ensures IsRecord(a, |Complete(a)|, |a|) && |a| - |Complete(a)| == |Rest(a)|
  {
    RestFacts(a);
    var c := |Complete(a)|;
    forall k | c <= k < |a| ensures a[k] != NEWLINE {
      assert a[k] == Rest(a)[k - c];
    }
  }

  lemma RestIsRest(a: seq<Byte>, limit: nat)
    ensures Complete(Rest(a)) == [] && Rest(Rest(a)) == Rest(a)
    ensures !TooLong(a, limit) ==> !TooLong(Rest(a), limit)
  {
    hide Complete, Rest;
    RestFacts(a);
    NothingComplete(Rest(a));
    if TooLong(Rest(a), limit) {
      RestIsRecord(a);
    }
  }

  // ----- the cursor

  datatype ReadReply = Data(data: seq<Byte>, more: bool, read: nat) | ReadError

  class FileCursor {
    const maxRecordBytes: nat
    var offset: nat
    var partial: seq<Byte>
    var partialRecordBytes: nat

    /** The held-back bytes are an unfinished record within the limit, and counted. */
    ghost predicate Valid()
      reads this
    {
      Complete(partial) == [] && !TooLong(partial, maxRecordBytes) && partialRecordBytes == |partial|
    }

    constructor Open(file: seq<Byte>, fromEnd: bool, maxRecordBytes: nat)
      ensures Valid() && this.maxRecordBytes == maxRecordBytes && partial == []
      ensures offset == if fromEnd then |file| else 0
    {
      this.maxRecordBytes := maxRecordBytes;
      offset, partial, partialRecordBytes := if fromEnd then |file| else 0, [], 0;
    }

    /**
     One read of at most `budget` bytes; `available` is how many the file system hands over.
     `stale` stands for a replaced file or an expired partial record, `utf8` for the decoder.
     */
    method ReadTurn(file: seq<Byte>, budget: nat, available: nat, stale: bool,
                    utf8: seq<Byte> -> bool) returns (r: ReadReply)
      requires Valid() && (offset <= |file| ==> available <= |file| - offset) && available <= budget
      modifies this
      ensures r.ReadError? <==>
                || stale || |file| < old(offset)
                || TooLong(old(partial) + file[old(offset)..old(offset) + available], maxRecordBytes)
                || (var data := Complete(old(partial) + file[old(offset)..old(offset) + available]);
                    data != [] && !utf8(data))
      ensures r.Data? ==>
                && Valid() && offset == old(offset) + available && r.read == available && r.more == (available > 0)
                && var all := old(partial) + file[old(offset)..offset];
                   r.data == Complete(all) && partial == Rest(all)
    {
      hide TooLong, Rest, Complete;
      if stale || |file| < offset {
        return ReadError;
      }
      var bytes := file[offset..offset + available];
      offset := offset + available;
      var prior := partial;
      var completeEnd: Option<nat> := None;
      assert prior + bytes[..0] == prior;
      RestFacts(prior);
      for index := 0 to |bytes|
        invariant partial == prior && offset == old(offset) + available
        invariant partialRecordBytes == |Rest(prior + bytes[..index])|
        invariant !TooLong(prior + bytes[..index], maxRecordBytes)
        invariant var c := Complete(prior + bytes[..index]);
                  if completeEnd.None? then c == [] else c != [] && completeEnd.value == |c|
      {
        var s, x := prior + bytes[..index], bytes[index];
        assert prior + bytes[..index + 1] == s + [x];
        AppendByte(s, x);
        TooLongAppend(s, x, maxRecordBytes);
        partialRecordBytes := partialRecordBytes + 1;
        if partialRecordBytes > maxRecordBytes {
          LongStays(prior, bytes, index + 1, maxRecordBytes);
          return ReadError;
        }
        if x == NEWLINE {
          partialRecordBytes := 0;
          completeEnd := Some(|prior| + index + 1);
        }
      }
      assert bytes[..|bytes|] == bytes;
      partial := prior + bytes;
      SplitsAtEnd(partial, maxRecordBytes);
      if completeEnd.Some? {
        var data := partial[..completeEnd.value];
        partial := partial[completeEnd.value..];
        if !utf8(data) {
          return ReadError;
        }
        r := Data(data, available > 0, available);
      } else {
        r := Data([], available > 0, available);
      }
    }
  }

  /** A decoder that judges text line by line, as UTF-8 allows. */
  ghost predicate LineWise(utf8: seq<Byte> -> bool) {
    forall a: seq<Byte>, b: seq<Byte> :: a != [] && a[|a| - 1] == NEWLINE && b != [] ==>
        (utf8(a + b) <==> utf8(a) && utf8(b))
  }

  /** No record is over-long and the complete ones decode. */
  ghost predicate Readable(s: seq<Byte>, limit: nat, utf8: seq<Byte> -> bool) {
    !TooLong(s, limit) && (Complete(s) == [] || utf8(Complete(s)))
  }

  /** Reading b after a, of which the rest was held back. */
  lemma ReadableOn(a: seq<Byte>, b: seq<Byte>, limit: nat, utf8: seq<Byte> -> bool)
    requires LineWise(utf8)
    ensures Readable(a + b, limit, utf8) <==> Readable(a, limit, utf8) && Readable(Rest(a) + b, limit, utf8)
  {
    hide TooLong, Rest, Complete;
    Split(a, b, limit);
    RestFacts(a);
    var x, y := Complete(a), Complete(Rest(a) + b);
    assert x == [] ==> x + y == y;
    assert y == [] ==> x + y == x;
  }

  function Sum(cuts: seq<nat>): nat {
    if cuts == [] then 0 else Sum(cuts[..|cuts| - 1]) + cuts[|cuts| - 1]
  }

  lemma {:induction false} SumPrefix(cuts: seq<nat>, k: nat)
    requires k <= |cuts|
    ensures Sum(cuts[..k]) <= Sum(cuts)
    ensures k < |cuts| ==> Sum(cuts[..k + 1]) == Sum(cuts[..k]) + cuts[k]
    decreases |cuts| - k
  {
    if k == |cuts| {
      assert cuts[..k] == cuts;
    } else {
      assert cuts[..k + 1][..k] == cuts[..k];
      SumPrefix(cuts, k + 1);
    }
  }

  /**
   Reads the file in turns of any sizes. Output, held-back bytes and failure depend on the bytes
   read alone, not on how they were cut.
   */
  method ReadTurns(cursor: FileCursor, file: seq<Byte>, cuts: seq<nat>, utf8: seq<Byte> -> bool) returns (ok: bool,
                   data: seq<Byte>)
    requires cursor.Valid() && cursor.offset + Sum(cuts) <= |file| && LineWise(utf8)
    modifies cursor
    ensures var all := old(cursor.partial) + file[old(cursor.offset)..old(cursor.offset) + Sum(cuts)];
            && (ok <==> Readable(all, cursor.maxRecordBytes, utf8))
            && (ok ==> data == Complete(all) && cursor.partial == Rest(all) && data + cursor.partial == all)
    ensures ok ==> cursor.Valid() && cursor.offset == old(cursor.offset) + Sum(cuts)
  {
    hide TooLong, Rest, Complete, LineWise;
    var limit := cursor.maxRecordBytes;
    ghost var held, from := cursor.partial, cursor.offset;
    ghost var total := held + file[from..from + Sum(cuts)];
    data := [];
    SplitsAtEnd(held, limit);
    assert held + file[from..from] == held;
    for k := 0 to |cuts|
      invariant cursor.Valid() && cursor.offset == from + Sum(cuts[..k]) <= from + Sum(cuts)
      invariant var all := held + file[from..cursor.offset];
                Readable(all, limit, utf8) && data == Complete(all) && cursor.partial == Rest(all)
    {
      SumPrefix(cuts, k);
      SumPrefix(cuts, k + 1);
      ghost var all, chunk := held + file[from..cursor.offset], file[cursor.offset..cursor.offset + cuts[k]];
      ghost var later := file[cursor.offset + cuts[k]..from + Sum(cuts)];
      assert held + file[from..cursor.offset + cuts[k]] == all + chunk;
      assert total == all + chunk + later;
      ReadableOn(all, chunk, limit, utf8);
      ReadableOn(all + chunk, later, limit, utf8);
      Split(all, chunk, limit);
      var r := cursor.ReadTurn(file, cuts[k], cuts[k], false, utf8);
      if r.ReadError? {
        return false, data;
      }
      data := data + r.data;
    }
    assert cuts[..|cuts|] == cuts;
    RestFacts(total);
    ok := true;
  }

  lemma SplitsAtEnd(s: seq<Byte>, limit: nat)
    requires !TooLong(s, limit)
    ensures |Complete(s)| <= |s| && s[..|Complete(s)|] == Complete(s) && s[|Complete(s)|..] == Rest(s)
    ensures Complete(Rest(s)) == [] && !TooLong(Rest(s), limit)
    ensures Complete(s) == [] ==> Rest(s) == s
  {
    hide TooLong;
    RestFacts(s);
    RestIsRest(s, limit);
  }

  lemma LongStays(prior: seq<Byte>, bytes: seq<Byte>, n: nat, limit: nat)
    requires n <= |bytes| && TooLong(prior + bytes[..n], limit)
    ensures TooLong(prior + bytes, limit)
  {
    hide TooLong;
    Split(prior + bytes[..n], bytes[n..], limit);
    assert prior + bytes[..n] + bytes[n..] == prior + bytes;
  }

  // ----- any number of turns

  function Concat(chunks: seq<seq<Byte>>): seq<Byte> {
    if chunks == [] then [] else chunks[0] + Concat(chunks[1..])
  }

  datatype Feed = Fed(data: seq<Byte>, partial: seq<Byte>) | Refused

  /** What successive turns put out together and hold back, when each acts as ReadTurn promises. */
  ghost function Turns(partial: seq<Byte>, chunks: seq<seq<Byte>>, limit: nat): Feed
    decreases |chunks|
  {
    if chunks == [] then Fed([], partial)
    else
      var all := partial + chunks[0];
      if TooLong(all, limit) then Refused
      else
        var r := Turns(Rest(all), chunks[1..], limit);
        if r.Fed? then Fed(Complete(all) + r.data, r.partial) else Refused
  }

  /** However the bytes are cut into reads, the outcome depends on the bytes alone. */
  lemma {:induction false} ChunkIndependent(partial: seq<Byte>, chunks: seq<seq<Byte>>, limit: nat)
    requires Complete(partial) == [] && !TooLong(partial, limit)
    ensures var all := partial + Concat(chunks);
            var r := Turns(partial, chunks, limit);
            && r == (if TooLong(all, limit) then Refused else Fed(Complete(all), Rest(all)))
            && (r.Fed? ==> r.data + r.partial == all)
    decreases |chunks|
  {
    hide TooLong, Complete, Rest;
    RestFacts(partial + Concat(chunks));
    if chunks == [] {
      assert partial + Concat(chunks) == partial;
      SplitsAtEnd(partial, limit);
    } else {
      var a, b := partial + chunks[0], Concat(chunks[1..]);
      assert partial + Concat(chunks) == a + b;
      Split(a, b, limit);
      if !TooLong(a, limit) {
        RestIsRest(a, limit);
        ChunkIndependent(Rest(a), chunks[1..], limit);
      }
    }
  }
}
