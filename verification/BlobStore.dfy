/** Blobs split into datastore fields (app/store/store.go): `writeBlobParts`, `newBlob` and
    `blob.read`, and the names that keep the parts of different blobs apart. */
module BlobStore {
  import opened Basics
  import opened Quoting

  const FIELD_BYTE_LIMIT := 1000000

  datatype BlobPart = BlobPart(id: GoString, bytes: Bytes, start: int)

  datatype Blob = Blob(inlined: Bytes, parts: seq<GoString>)

  /** The entities of kind "blobParts", by name. */
  type Parts = map<GoString, BlobPart>

  /** Which of the two blobs of a request ID. */
  datatype Role = RequestBlob | ResponseBlob

  // ---------------------------------------------------------------- names

  predicate IsDigit(c: char) { '0' <= c <= '9' }

  function Digit(n: nat): char
    requires n < 10
  {
    '0' + n as char
  }

  /** `%d` of a natural number. */
  function Decimal(n: nat): (r: string)
    ensures |r| > 0 && forall k :: 0 <= k < |r| ==> IsDigit(r[k])
  {
    if n < 10 then [Digit(n)] else Decimal(n / 10) + [Digit(n % 10)]
  }

  function DecimalValue(s: string): nat
  {
    if s == [] then 0
    else 10 * DecimalValue(s[..|s| - 1]) + (if IsDigit(s[|s| - 1]) then s[|s| - 1] as int - '0' as int else 0)
  }

  lemma {:induction false} DecimalRoundTrip(n: nat)
    ensures DecimalValue(Decimal(n)) == n
  {
    var s := Decimal(n);
    if n < 10 {
      assert s[..|s| - 1] == [];
    } else {
      DecimalRoundTrip(n / 10);
      assert s[..|s| - 1] == Decimal(n / 10);
    }
  }

  /** A Go string that is plain text. */
  function Text(s: string): (r: GoString)
    ensures |r| == |s|
  {
    seq(|s|, i requires 0 <= i < |s| => Rune(s[i]))
  }

  lemma TextInjective(a: string, b: string)
    requires Text(a) == Text(b)
    ensures a == b
  {
    forall i | 0 <= i < |a| ensures a[i] == b[i] {
      assert Text(a)[i] == Text(b)[i];
    }
  }

  predicate EndsInDigit(s: GoString) { s != [] && s[|s| - 1].Rune? && IsDigit(s[|s| - 1].c) }

  /** The number of digits that `s` ends in. */
  function TrailingDigits(s: GoString): (n: nat)
    ensures n <= |s|
  {
    if EndsInDigit(s) then 1 + TrailingDigits(s[..|s| - 1]) else 0
  }

  lemma {:induction false} TrailingDigitsOf(front: GoString, digits: string)
    requires |front| > 0 && !EndsInDigit(front)
    requires forall k :: 0 <= k < |digits| ==> IsDigit(digits[k])
    ensures TrailingDigits(front + Text(digits)) == |digits|
    decreases |digits|
  {
    var s := front + Text(digits);
    if digits == [] {
      assert s == front;
    } else {
      var d := digits[..|digits| - 1];
      assert s[..|s| - 1] == front + Text(d);
      assert s[|s| - 1] == Rune(digits[|digits| - 1]);
      TrailingDigitsOf(front, d);
    }
  }

  function Suffix(role: Role): string {
    match role case RequestBlob => ".request" case ResponseBlob => ".response"
  }

  function BlobName(id: GoString, role: Role): GoString { id + Text(Suffix(role)) }

  function PartName(blobName: GoString, i: nat): GoString { blobName + Text(".part") + Text(Decimal(i)) }

  lemma PartNameInjective(a: GoString, i: nat, b: GoString, j: nat)
    ensures PartName(a, i) == PartName(b, j) <==> a == b && i == j
  {
    if PartName(a, i) == PartName(b, j) {
      var s, m, n := PartName(a, i), |Decimal(i)|, |Decimal(j)|;
      var front, front' := a + Text(".part"), b + Text(".part");
      TrailingDigitsOf(front, Decimal(i));
      TrailingDigitsOf(front', Decimal(j));
      assert s[|s| - m..] == Text(Decimal(i)) && s[|s| - n..] == Text(Decimal(j));
      TextInjective(Decimal(i), Decimal(j));
      DecimalRoundTrip(i);
      DecimalRoundTrip(j);
      assert s[..|s| - m] == front == front';
      assert front[..|a|] == a && front'[..|b|] == b;
    }
  }

  lemma BlobNameInjective(id: GoString, role: Role, id': GoString, role': Role)
    ensures BlobName(id, role) == BlobName(id', role') <==> id == id' && role == role'
  {
    var a, b := BlobName(id, role), BlobName(id', role');
    if a == b {
      assert a[|a| - 1] == Rune(if role == RequestBlob then 't' else 'e');
      assert b[|b| - 1] == Rune(if role' == RequestBlob then 't' else 'e');
      assert a[..|a| - |Suffix(role)|] == id && b[..|b| - |Suffix(role')|] == id';
    }
  }

  /** Parts of different blobs, and different parts of one blob, never share a name, whatever
      characters the request IDs are made of. */
  lemma PartsNeverCollide(id: GoString, role: Role, i: nat, id': GoString, role': Role, i': nat)
    ensures PartName(BlobName(id, role), i) == PartName(BlobName(id', role'), i') <==>
            id == id' && role == role' && i == i'
  {
    PartNameInjective(BlobName(id, role), i, BlobName(id', role'), i');
    BlobNameInjective(id, role, id', role');
  }

  // ---------------------------------------------------------------- the specification

  function PartCount(n: nat): (r: nat)
    ensures (r - 1) * FIELD_BYTE_LIMIT <= n < r * FIELD_BYTE_LIMIT
  {
    n / FIELD_BYTE_LIMIT + 1
  }

  /** The bytes of part `i`. */
  function PartBytes(bytes: Bytes, i: nat): (r: Bytes)
    requires i < PartCount(|bytes|)
    ensures |r| <= FIELD_BYTE_LIMIT
  {
    var end := if (i + 1) * FIELD_BYTE_LIMIT > |bytes| then |bytes| else (i + 1) * FIELD_BYTE_LIMIT;
    bytes[i * FIELD_BYTE_LIMIT..end]
  }

  /** The part names of a blob whose overflow is `n` bytes long. */
  function PartNames(blobName: GoString, n: nat): seq<GoString> {
    seq(PartCount(n), i requires 0 <= i => PartName(blobName, i))
  }

  predicate IsPartName(k: GoString, blobName: GoString, n: nat) {
    exists i :: 0 <= i < PartCount(n) && k == PartName(blobName, i)
  }

  predicate PartWritten(parts: Parts, bytes: Bytes, blobName: GoString, i: nat)
    requires i < PartCount(|bytes|)
  {
    PartName(blobName, i) in parts && parts[PartName(blobName, i)].bytes == PartBytes(bytes, i)
  }

  /** The whole entity of part `i`, as written at time `t`. */
  predicate PutAs(parts: Parts, bytes: Bytes, blobName: GoString, i: nat, t: int)
    requires i < PartCount(|bytes|)
  {
    var name := PartName(blobName, i);
    name in parts && parts[name] == BlobPart(name, PartBytes(bytes, i), t)
  }

  predicate SameUnder(k: GoString, a: Parts, b: Parts) { (k in a <==> k in b) && (k in a ==> a[k] == b[k]) }

  /** What `newBlob` returns for `bytes`. */
  function BlobOf(bytes: Bytes, blobName: GoString): (r: Blob)
    ensures |r.inlined| <= FIELD_BYTE_LIMIT
  {
    if |bytes| < FIELD_BYTE_LIMIT then Blob(bytes, [])
    else Blob(bytes[..FIELD_BYTE_LIMIT], PartNames(blobName, |bytes| - FIELD_BYTE_LIMIT))
  }

  /** What `GetMulti` returns for the parts, joined: an error if any of them is missing. */
  function JoinParts(parts: Parts, names: seq<GoString>): Option<Bytes>
  {
    if names == [] then Some([])
    else if names[0] !in parts then None
    else match JoinParts(parts, names[1..])
      case Some(rest) => Some(parts[names[0]].bytes + rest)
      case None => None
  }

  /** What `blob.read` returns. */
  function ReadBlob(parts: Parts, b: Blob): Option<Bytes>
  {
    if b.parts == [] then Some(b.inlined)
    else match JoinParts(parts, b.parts)
      case Some(rest) => Some(b.inlined + rest)
      case None => None
  }

  lemma {:induction false} JoinPartsFrom(parts: Parts, bytes: Bytes, blobName: GoString, i: nat)
    requires i < PartCount(|bytes|)
    requires forall k :: i <= k < PartCount(|bytes|) ==> PartWritten(parts, bytes, blobName, k)
    ensures JoinParts(parts, PartNames(blobName, |bytes|)[i..]) == Some(bytes[i * FIELD_BYTE_LIMIT..])
    decreases PartCount(|bytes|) - i
  {
    var names := PartNames(blobName, |bytes|)[i..];
    assert names[0] == PartName(blobName, i);
    assert PartWritten(parts, bytes, blobName, i);
    if i + 1 == PartCount(|bytes|) {
      assert names[1..] == [];
      assert bytes[i * FIELD_BYTE_LIMIT..] == PartBytes(bytes, i) + [];
    } else {
      assert names[1..] == PartNames(blobName, |bytes|)[i + 1..];
      JoinPartsFrom(parts, bytes, blobName, i + 1);
      assert bytes[i * FIELD_BYTE_LIMIT..] == PartBytes(bytes, i) + bytes[(i + 1) * FIELD_BYTE_LIMIT..];
    }
  }

  lemma {:induction false} JoinPartsFinds(parts: Parts, names: seq<GoString>)
    ensures JoinParts(parts, names).Some? <==> forall k :: 0 <= k < |names| ==> names[k] in parts
  {
    if names != [] {
      JoinPartsFinds(parts, names[1..]);
      assert forall k :: 1 <= k < |names| ==> names[k] == names[1..][k - 1];
    }
  }

  /** What is left of a blob after its tail beyond the inlined field is written out. */
  function Overflow(bytes: Bytes): Bytes {
    if |bytes| < FIELD_BYTE_LIMIT then [] else bytes[FIELD_BYTE_LIMIT..]
  }

  /** Every part of the blob that is present holds what was written for it. */
  ghost predicate Faithful(parts: Parts, bytes: Bytes, blobName: GoString) {
    forall i :: 0 <= i < PartCount(|Overflow(bytes)|) && PartName(blobName, i) in parts ==>
      PartWritten(parts, Overflow(bytes), blobName, i)
  }

  /** A read of a blob returns exactly the bytes that were written, or an error if a part has been
      deleted; there is no third outcome. */
  lemma ReadIsExactOrFails(parts: Parts, bytes: Bytes, blobName: GoString)
    requires Faithful(parts, bytes, blobName)
    ensures
      var b := BlobOf(bytes, blobName);
      ReadBlob(parts, b) == if forall k :: 0 <= k < |b.parts| ==> b.parts[k] in parts then Some(bytes) else None
  {
    var b := BlobOf(bytes, blobName);
    if |bytes| >= FIELD_BYTE_LIMIT {
      JoinPartsFinds(parts, b.parts);
      if forall k :: 0 <= k < |b.parts| ==> b.parts[k] in parts {
        forall i | 0 <= i < PartCount(|Overflow(bytes)|) ensures PartWritten(parts, Overflow(bytes), blobName, i) {
          assert b.parts[i] == PartName(blobName, i);
        }
        JoinPartsFrom(parts, Overflow(bytes), blobName, 0);
        assert b.parts[0..] == b.parts;
        assert Overflow(bytes)[0..] == Overflow(bytes);
        assert b.inlined + Overflow(bytes) == bytes;
      }
    }
  }

  // ---------------------------------------------------------------- parts of different writings

  /** How many parts a blob has. */
  function NumParts(bytes: Bytes): nat { if |bytes| < FIELD_BYTE_LIMIT then 0 else PartCount(|Overflow(bytes)|) }

  /** Part `i` of what was written as `from[i]`, for each of them. */
  predicate Supplied(from: seq<Bytes>) { forall i :: 0 <= i < |from| ==> i < NumParts(from[i]) }

  /** What a read has put together from the inlined bytes of `first` and those parts. */
  function Assembled(first: Bytes, from: seq<Bytes>): Bytes
    requires Supplied(from)
  {
    if from == [] then BlobOf(first, []).inlined
    else
      var i := |from| - 1;
      assert i < NumParts(from[i]);
      Assembled(first, from[..i]) + PartBytes(Overflow(from[i]), i)
  }

  /** The first `end` bytes, or all of them if there are fewer. */
  function Front(bytes: Bytes, end: nat): Bytes { if end <= |bytes| then bytes[..end] else bytes }

  lemma FrontGrows(bytes: Bytes, i: nat)
    requires i < NumParts(bytes)
    ensures
      var end := FIELD_BYTE_LIMIT * (i + 1);
      Front(bytes, end) + PartBytes(Overflow(bytes), i) == Front(bytes, end + FIELD_BYTE_LIMIT)
  {
    var end := FIELD_BYTE_LIMIT * (i + 1);
    assert end <= |bytes|;
    var part := PartBytes(Overflow(bytes), i);
    assert part == if end + FIELD_BYTE_LIMIT <= |bytes| then bytes[end..end + FIELD_BYTE_LIMIT] else bytes[end..];
  }

  /** If all parts were written by writings of the same bytes, the read puts those bytes together. */
  lemma {:induction false} AssembledSame(bytes: Bytes, from: seq<Bytes>)
    requires Supplied(from) && |from| <= NumParts(bytes) && forall i :: 0 <= i < |from| ==> from[i] == bytes
    ensures Assembled(bytes, from) == Front(bytes, FIELD_BYTE_LIMIT * (|from| + 1))
    decreases |from|
  {
    if from != [] {
      var i := |from| - 1;
      AssembledSame(bytes, from[..i]);
      FrontGrows(bytes, i);
      assert from[i] == bytes;
    }
  }

  // ---------------------------------------------------------------- the methods

  class Datastore {
    var parts: Parts

    constructor ()
      ensures parts == map[]
    {
      parts := map[];
    }

    /** `lands(i)` says whether the put of part `i` succeeds. */
    method WriteBlobParts(bytes: Bytes, blobName: GoString, t: int, lands: nat -> bool)
      returns (names: Option<seq<GoString>>)
      modifies this
      ensures names.Some? <==> forall i :: 0 <= i < PartCount(|bytes|) ==> lands(i)
      ensures names.Some? ==> names.value == PartNames(blobName, |bytes|) && |names.value| == |bytes| / 1_000_000 + 1
      ensures forall i :: 0 <= i < PartCount(|bytes|) && lands(i) ==>
        PutAs(parts, bytes, blobName, i, t) && |PartBytes(bytes, i)| <= 1_000_000
      ensures forall i :: 0 <= i < PartCount(|bytes|) && !lands(i) ==>
        SameUnder(PartName(blobName, i), parts, old(parts))
      ensures forall k :: !IsPartName(k, blobName, |bytes|) ==> SameUnder(k, parts, old(parts))
    {
      var partNames: seq<GoString> := [];
      var failed := false;
      var partCount := |bytes| / FIELD_BYTE_LIMIT + 1;
      for i := 0 to partCount
        invariant partNames == PartNames(blobName, |bytes|)[..i]
        invariant failed <==> exists k :: 0 <= k < i && !lands(k)
        invariant forall k :: 0 <= k < i && lands(k) ==> PutAs(parts, bytes, blobName, k, t)
        invariant forall k :: 0 <= k < PartCount(|bytes|) && (k >= i || !lands(k)) ==>
          SameUnder(PartName(blobName, k), parts, old(parts))
        invariant forall k :: !IsPartName(k, blobName, |bytes|) ==> SameUnder(k, parts, old(parts))
      {
        var partStart := i * FIELD_BYTE_LIMIT;
        var partEnd := (i + 1) * FIELD_BYTE_LIMIT;
        if partEnd > |bytes| {
          partEnd := |bytes|;
        }
        var partBytes := bytes[partStart..partEnd];
        var id := PartName(blobName, i);
        forall k | 0 <= k < PartCount(|bytes|) && k != i ensures PartName(blobName, k) != id {
          PartNameInjective(blobName, k, blobName, i);
        }
        partNames := partNames + [id];
        if lands(i) {
          parts := parts[id := BlobPart(id, partBytes, t)];
        } else {
          failed := true;
        }
      }
      names := if failed then None else Some(partNames);
    }

    method NewBlob(bytes: Bytes, blobName: GoString, t: int, lands: nat -> bool) returns (b: Option<Blob>)
      modifies this
      ensures b.Some? <==> |bytes| < FIELD_BYTE_LIMIT || forall i :: 0 <= i < PartCount(|Overflow(bytes)|) ==> lands(i)
      ensures b.Some? ==> b.value == BlobOf(bytes, blobName) && ReadBlob(parts, b.value) == Some(bytes)
      ensures b.Some? ==> (b.value.parts == [] <==> |bytes| < 1_000_000) && |b.value.inlined| <= 1_000_000
      ensures forall k :: !IsPartName(k, blobName, |Overflow(bytes)|) ==> SameUnder(k, parts, old(parts))
    {
      if |bytes| < FIELD_BYTE_LIMIT {
        return Some(Blob(bytes, []));
      }
      var names := WriteBlobParts(bytes[FIELD_BYTE_LIMIT..], blobName, t, lands);
      if names == None {
        return None;
      }
      b := Some(Blob(bytes[0..FIELD_BYTE_LIMIT], names.value));
      assert b.value == BlobOf(bytes, blobName);
      forall k | 0 <= k < |b.value.parts| ensures b.value.parts[k] in parts {
        assert PutAs(parts, Overflow(bytes), blobName, k, t);
      }
      assert Faithful(parts, bytes, blobName) by {
        assert forall i :: 0 <= i < PartCount(|Overflow(bytes)|) ==> PutAs(parts, Overflow(bytes), blobName, i, t);
      }
      ReadIsExactOrFails(parts, bytes, blobName);
    }

    method Read(b: Blob) returns (r: Option<Bytes>)
      ensures r == ReadBlob(parts, b)
    {
      var bytes := b.inlined;
      if |b.parts| == 0 {
        return Some(bytes);
      }
      JoinPartsFinds(parts, b.parts);
      for i := 0 to |b.parts|
        invariant forall k :: 0 <= k < i ==> b.parts[k] in parts
      {
        if b.parts[i] !in parts {
          return None;
        }
      }
      assert b.parts[0..] == b.parts;
      for i := 0 to |b.parts|
        invariant JoinParts(parts, b.parts[i..]).Some?
        invariant bytes + JoinParts(parts, b.parts[i..]).value == b.inlined + JoinParts(parts, b.parts).value
      {
        assert b.parts[i..][1..] == b.parts[i + 1..];
        bytes := bytes + parts[b.parts[i]].bytes;
      }
      assert b.parts[|b.parts|..] == [] && bytes + [] == bytes;
      r := Some(bytes);
    }
  }

  // ---------------------------------------------------------------- every run

  /** One datastore operation on parts. The puts of one blob are concurrent, so they are single
      steps here; deletion is the clean-up job's. */
  datatype PartStep =
    | WritePart(id: GoString, role: Role, bytes: Bytes, i: nat, start: int)
    | DeletePart(name: GoString)

  predicate Possible(a: PartStep) {
    a.WritePart? ==> |a.bytes| >= FIELD_BYTE_LIMIT && a.i < PartCount(|Overflow(a.bytes)|)
  }

  function Apply(parts: Parts, a: PartStep): Parts
    requires Possible(a)
  {
    match a
    case WritePart(id, role, bytes, i, start) =>
      var name := PartName(BlobName(id, role), i);
      parts[name := BlobPart(name, PartBytes(Overflow(bytes), i), start)]
    case DeletePart(name) => parts - {name}
  }

  function ApplyAll(parts: Parts, run: seq<PartStep>): Parts
    requires AllPossible(run)
  {
    if run == [] then parts else Apply(ApplyAll(parts, run[..|run| - 1]), run[|run| - 1])
  }

  predicate AllPossible(run: seq<PartStep>) { forall k :: 0 <= k < |run| ==> Possible(run[k]) }

  /** The blob is only ever written with these bytes. */
  predicate WritesOnly(run: seq<PartStep>, id: GoString, role: Role, bytes: Bytes) {
    forall k :: 0 <= k < |run| ==> run[k].WritePart? && run[k].id == id && run[k].role == role ==> run[k].bytes == bytes
  }

  predicate Puts(a: PartStep, name: GoString) { a.WritePart? && PartName(BlobName(a.id, a.role), a.i) == name }

  predicate Deletes(a: PartStep, name: GoString) { a.DeletePart? && a.name == name }

  predicate NeverDeletedFrom(run: seq<PartStep>, k: nat, name: GoString) {
    forall m :: k <= m < |run| ==> !Deletes(run[m], name)
  }

  /** The last operation on the name puts it, or it was there and is not deleted. */
  ghost predicate Survives(parts: Parts, run: seq<PartStep>, name: GoString) {
    || (name in parts && NeverDeletedFrom(run, 0, name))
    || exists k :: 0 <= k < |run| && Puts(run[k], name) && NeverDeletedFrom(run, k, name)
  }

  /** What one more operation does to the survival of a name. */
  lemma SurvivesOneMore(parts: Parts, run: seq<PartStep>, a: PartStep, name: GoString)
    ensures Puts(a, name) ==> Survives(parts, run + [a], name)
    ensures Deletes(a, name) ==> !Survives(parts, run + [a], name)
    ensures !Puts(a, name) && !Deletes(a, name) ==> (Survives(parts, run + [a], name) <==> Survives(parts, run, name))
  {
    var longer := run + [a];
    assert longer[|run|] == a;
    if Deletes(a, name) {
      assert forall k: nat :: k <= |run| ==> !NeverDeletedFrom(longer, k, name);
    } else if Puts(a, name) {
      assert NeverDeletedFrom(longer, |run|, name);
    } else {
      OtherOperation(parts, run, a, name);
    }
  }

  lemma OtherOperation(parts: Parts, run: seq<PartStep>, a: PartStep, name: GoString)
    requires !Puts(a, name) && !Deletes(a, name)
    ensures Survives(parts, run + [a], name) <==> Survives(parts, run, name)
  {
    var longer := run + [a];
    forall k: nat | k <= |run| ensures NeverDeletedFrom(longer, k, name) <==> NeverDeletedFrom(run, k, name) {
      assert forall m :: k <= m < |run| ==> longer[m] == run[m];
    }
    if k :| 0 <= k < |run| && Puts(run[k], name) && NeverDeletedFrom(run, k, name) {
      assert Puts(longer[k], name) && NeverDeletedFrom(longer, k, name);
    }
  }

  lemma {:induction false} PresentExactlyIfSurvives(parts: Parts, run: seq<PartStep>, name: GoString)
    requires AllPossible(run)
    ensures name in ApplyAll(parts, run) <==> Survives(parts, run, name)
  {
    if run != [] {
      var front, a := run[..|run| - 1], run[|run| - 1];
      PresentExactlyIfSurvives(parts, front, name);
      PresentAfter(ApplyAll(parts, front), a, name);
      SurvivesOneMore(parts, front, a, name);
      assert run == front + [a];
    }
  }

  lemma PresentAfter(parts: Parts, a: PartStep, name: GoString)
    requires Possible(a)
    ensures name in Apply(parts, a) <==> Puts(a, name) || (name in parts && !Deletes(a, name))
  {
  }

  /** What is there of a blob that is only written with the same bytes is what was written. */
  lemma {:induction false} RunKeepsFaithful(parts: Parts, run: seq<PartStep>, id: GoString, role: Role, bytes: Bytes)
    requires AllPossible(run) && WritesOnly(run, id, role, bytes) && Faithful(parts, bytes, BlobName(id, role))
    ensures Faithful(ApplyAll(parts, run), bytes, BlobName(id, role))
  {
    if run != [] {
      var before := ApplyAll(parts, run[..|run| - 1]);
      var a := run[|run| - 1];
      RunKeepsFaithful(parts, run[..|run| - 1], id, role, bytes);
      if a.WritePart? {
        forall i | 0 <= i < PartCount(|Overflow(bytes)|) && PartName(BlobName(id, role), i) in Apply(before, a)
          ensures PartWritten(Apply(before, a), Overflow(bytes), BlobName(id, role), i)
        {
          PartsNeverCollide(id, role, i, a.id, a.role, a.i);
        }
      }
    }
  }

  /** In every run of part writes for any blobs, with deletions anywhere in between, a blob that is
      only ever written with the same bytes reads as exactly those bytes if the last operation on each
      of its parts was a put, and fails otherwise. */
  lemma ReadAfterRun(parts: Parts, run: seq<PartStep>, id: GoString, role: Role, bytes: Bytes)
    requires AllPossible(run) && WritesOnly(run, id, role, bytes) && Faithful(parts, bytes, BlobName(id, role))
    ensures
      var b := BlobOf(bytes, BlobName(id, role));
      ReadBlob(ApplyAll(parts, run), b) ==
        if forall i :: 0 <= i < |b.parts| ==> Survives(parts, run, b.parts[i]) then Some(bytes) else None
  {
    var b := BlobOf(bytes, BlobName(id, role));
    RunKeepsFaithful(parts, run, id, role, bytes);
    ReadIsExactOrFails(ApplyAll(parts, run), bytes, BlobName(id, role));
    forall i | 0 <= i < |b.parts| ensures b.parts[i] in ApplyAll(parts, run) <==> Survives(parts, run, b.parts[i]) {
      PresentExactlyIfSurvives(parts, run, b.parts[i]);
    }
  }

  /** So no write for any other blob, in whatever order and however often, and no deletion of its parts,
      ever changes what a blob reads as. */
  lemma BlobsDoNotDisturbEachOther(parts: Parts, run: seq<PartStep>, id: GoString, role: Role, bytes: Bytes)
    requires AllPossible(run) && WritesOnly(run, id, role, bytes) && Faithful(parts, bytes, BlobName(id, role))
    requires forall k, i: nat :: 0 <= k < |run| ==> !Deletes(run[k], PartName(BlobName(id, role), i))
    requires ReadBlob(parts, BlobOf(bytes, BlobName(id, role))) == Some(bytes)
    ensures ReadBlob(ApplyAll(parts, run), BlobOf(bytes, BlobName(id, role))) == Some(bytes)
  {
    var b := BlobOf(bytes, BlobName(id, role));
    ReadAfterRun(parts, run, id, role, bytes);
    ReadIsExactOrFails(parts, bytes, BlobName(id, role));
    forall i | 0 <= i < |b.parts| ensures Survives(parts, run, b.parts[i]) {
      assert b.parts[i] == PartName(BlobName(id, role), i) && b.parts[i] in parts;
    }
  }

  // ---------------------------------------------------------------- what names look like

  lemma TextJoin(a: string, b: string)
    ensures Text(a + b) == Text(a) + Text(b)
  {
  }

  /** The names of the parts of a request's and of a response's blob. */
  lemma PartNameLooksLike(id: string, i: nat)
    ensures PartName(BlobName(Text(id), RequestBlob), i) == Text(id + ".request.part" + Decimal(i))
    ensures PartName(BlobName(Text(id), ResponseBlob), i) == Text(id + ".response.part" + Decimal(i))
  {
    forall suffix | suffix == ".request" || suffix == ".response"
      ensures Text(id) + Text(suffix) + Text(".part") + Text(Decimal(i)) == Text(id + (suffix + ".part") + Decimal(i))
    {
      TextJoin(id, suffix);
      TextJoin(id + suffix, ".part");
      TextJoin(id + suffix + ".part", Decimal(i));
      assert id + suffix + ".part" == id + (suffix + ".part");
    }
  }
}
