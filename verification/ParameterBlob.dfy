/**
 Passing arguments to a method in the debuggee: objects without an address are copied into one
 block of bytes, and the server turns offsets and addresses into the pointers the callee gets.
 */
module ParameterBlob {
  import opened TargetEvents
  import opened BinaryAccess

  /** An argument: null, an object in the debuggee's memory, or one held by the debugger. */
  datatype Object = Null | Addressed(address: nat) | Held(contents: seq<Byte>)

  function Size(o: Object): nat {
    if o.Held? then |o.contents| else 0
  }

  /** The bytes of the held objects, in order. */
  function Blob(objects: seq<Object>): seq<Byte> {
    if objects == [] then []
    else
      var n := |objects| - 1;
      Blob(objects[..n]) + if objects[n].Held? then objects[n].contents else []
  }

  /** The offset recorded for an argument. */
  function OffsetOf(objects: seq<Object>, i: nat): int
    requires i < |objects|
  {
    match objects[i]
    case Null => 0
    case Addressed(_) => -1
    case Held(_) => |Blob(objects[..i])|
  }

  function AddressOf(o: Object): nat {
    if o.Addressed? then o.address else 0
  }

  /** The packing part of `RuntimeInvoke`: the first loop measures, the second copies. */
  method Pack(instance: Object, params: seq<Object>)
    returns (offsets: array<int>, addresses: array<nat>, blob: array<Byte>, size: nat)
    ensures var objects := [instance] + params;
            && offsets.Length == |objects| && addresses.Length == |objects|
            && (forall i :: 0 <= i < |objects| ==>
              offsets[i] == OffsetOf(objects, i) && addresses[i] == AddressOf(objects[i]))
            && blob[..] == Blob(objects) && size == |Blob(objects)|
  {
    var objects := [instance] + params;
    var blobs;
    offsets, addresses, blobs, size := Measure(objects);
    blob := new Byte[size](_ => 0);
    size := Copy(objects, blobs, blob);
  }

  /** One turn of the first loop. */
  method Record(
    o: Object, i: nat, offsets: array<int>, addresses: array<nat>, blobs: array<Option<seq<Byte>>>, size: nat)
    returns (newSize: nat)
    requires i < offsets.Length && i < addresses.Length && i < blobs.Length
    requires offsets[i] == 0 && addresses[i] == 0 && blobs[i].None?
    modifies offsets, addresses, blobs
    ensures newSize == size + Size(o)
    ensures offsets[..] == old(offsets[..])[i := if o.Null? then 0 else if o.Addressed? then -1 else size]
    ensures addresses[..] == old(addresses[..])[i := AddressOf(o)]
    ensures blobs[..] == old(blobs[..])[i := HeldBytes(o)]
  {
    newSize := size;
    if o.Null? {
      return;
    }
    if o.Addressed? {
      offsets[i] := -1;
      addresses[i] := o.address;
      return;
    }
    blobs[i] := Some(o.contents);
    offsets[i] := size;
    newSize := size + |o.contents|;
  }

  method Measure(objects: seq<Object>)
    returns (offsets: array<int>, addresses: array<nat>, blobs: array<Option<seq<Byte>>>, size: nat)
    ensures fresh(offsets) && fresh(addresses) && fresh(blobs)
    ensures offsets.Length == |objects| && addresses.Length == |objects| && blobs.Length == |objects|
    ensures forall i :: 0 <= i < |objects| ==> offsets[i] == OffsetOf(objects, i)
    ensures forall i :: 0 <= i < |objects| ==> addresses[i] == AddressOf(objects[i])
    ensures forall i :: 0 <= i < |objects| ==> blobs[i] == HeldBytes(objects[i])
    ensures size == |Blob(objects)|
  {
    size := 0;
    blobs := new Option<seq<Byte>>[|objects|](_ => None);
    offsets := new int[|objects|](_ => 0);
    addresses := new nat[|objects|](_ => 0);
    for i := 0 to |objects|
      invariant size == |Blob(objects[..i])|
      invariant forall j :: 0 <= j < |objects| ==> offsets[..][j] == if j < i then OffsetOf(objects, j) else 0
      invariant forall j :: 0 <= j < |objects| ==> addresses[..][j] == if j < i then AddressOf(objects[j]) else 0
      invariant forall j :: 0 <= j < |objects| ==> blobs[..][j] == if j < i then HeldBytes(objects[j]) else None
    {
      BlobOneMore(objects, i);
      assert offsets[..][i] == 0 && addresses[..][i] == 0 && blobs[..][i].None?;
      size := Record(objects[i], i, offsets, addresses, blobs, size);
    }
    assert objects[..|objects|] == objects;
  }

  function HeldBytes(o: Object): Option<seq<Byte>> {
    if o.Held? then Some(o.contents) else None
  }

  lemma BlobOneMore(objects: seq<Object>, i: nat)
    requires i < |objects|
    ensures Blob(objects[..i + 1]) == Blob(objects[..i]) + if objects[i].Held? then objects[i].contents else []
  {
    assert objects[..i + 1][..i] == objects[..i];
  }

  /** The second loop reaches exactly the size the first one measured. */
  method Copy(objects: seq<Object>, blobs: array<Option<seq<Byte>>>, blob: array<Byte>) returns (size: nat)
    requires blobs.Length == |objects| && forall i :: 0 <= i < |objects| ==> blobs[i] == HeldBytes(objects[i])
    requires blob.Length == |Blob(objects)|
    modifies blob
    ensures blob[..] == Blob(objects) && size == blob.Length
  {
    size := 0;
    for i := 0 to |objects|
      invariant size == |Blob(objects[..i])| <= blob.Length
      invariant blob[..size] == Blob(objects[..i])
    {
      BlobOneMore(objects, i);
      BlobGrows(objects, i + 1);
      if blobs[i].None? {
        continue;
      }
      CopyTo(blobs[i].value, blob, size);
      size := size + |blobs[i].value|;
    }
    assert objects[..|objects|] == objects;
    assert blob[..size] == blob[..];
  }

  method CopyTo(bytes: seq<Byte>, blob: array<Byte>, at: nat)
    requires at + |bytes| <= blob.Length
    modifies blob
    ensures blob[..at + |bytes|] == old(blob[..at]) + bytes
  {
    for k := 0 to |bytes|
      invariant blob[..at + k] == old(blob[..at]) + bytes[..k]
    {
      blob[at + k] := bytes[k];
      assert blob[..at + k + 1] == blob[..at + k] + [bytes[k]];
      assert bytes[..k + 1] == bytes[..k] + [bytes[k]];
    }
    assert bytes[..|bytes|] == bytes;
  }

  lemma {:induction false} BlobGrows(objects: seq<Object>, i: nat)
    requires i <= |objects|
    ensures Blob(objects[..i]) <= Blob(objects)
  {
    if i == |objects| {
      assert objects[..i] == objects;
    } else {
      var n := |objects| - 1;
      assert objects[..n][..i] == objects[..i];
      BlobGrows(objects[..n], i);
    }
  }

  // ---------------------------------------------------------- main results

  /** The bytes of the blob that belong to an argument. */
  predicate Owns(objects: seq<Object>, i: nat, k: int)
    requires i < |objects|
  {
    objects[i].Held? && OffsetOf(objects, i) <= k < OffsetOf(objects, i) + Size(objects[i])
  }

  /** A held object is in the blob at its offset. */
  lemma HeldObjectsAreAtTheirOffsets(objects: seq<Object>, i: nat)
    requires i < |objects| && objects[i].Held?
    ensures var at := OffsetOf(objects, i);
            0 <= at <= at + Size(objects[i]) <= |Blob(objects)|
              && Blob(objects)[at..at + Size(objects[i])] == objects[i].contents
  {
    BlobOneMore(objects, i);
    BlobGrows(objects, i + 1);
    var at := OffsetOf(objects, i);
    assert Blob(objects[..i + 1])[at..] == objects[i].contents;
  }

  /** Every byte of the blob belongs to exactly one argument. */
  lemma EveryByteHasOneOwner(objects: seq<Object>, k: nat)
    requires k < |Blob(objects)|
    ensures exists i :: 0 <= i < |objects| && Owns(objects, i, k)
    ensures forall i, j :: 0 <= i < j < |objects| ==> !(Owns(objects, i, k) && Owns(objects, j, k))
  {
    var i := Owner(objects, k);
    forall i, j | 0 <= i < j < |objects|
      ensures !(Owns(objects, i, k) && Owns(objects, j, k))
    {
      if Owns(objects, i, k) && Owns(objects, j, k) {
        RangesAreOrdered(objects, i, j);
      }
    }
  }

  lemma RangesAreOrdered(objects: seq<Object>, i: nat, j: nat)
    requires i < j < |objects| && objects[i].Held? && objects[j].Held?
    ensures OffsetOf(objects, i) + Size(objects[i]) <= OffsetOf(objects, j)
  {
    BlobOneMore(objects, i);
    BlobGrows(objects[..j], i + 1);
    assert objects[..j][..i + 1] == objects[..i + 1];
  }

  lemma {:induction false} Owner(objects: seq<Object>, k: nat) returns (i: nat)
    requires k < |Blob(objects)|
    ensures i < |objects| && Owns(objects, i, k)
    decreases |objects|
  {
    var n := |objects| - 1;
    if k < |Blob(objects[..n])| {
      i := Owner(objects[..n], k);
      assert objects[..n][..i] == objects[..i];
    } else {
      i := n;
    }
  }

  /** The pointer the server passes for an argument, when the blob starts at `start`. */
  function PointerFor(offset: int, address: nat, start: nat): nat {
    if offset >= 0 then start + offset else address
  }

  /** The pointer means the object: null, its address, or a copy of its bytes in the block. */
  predicate Means(objects: seq<Object>, i: nat, start: nat, pointer: nat)
    requires i < |objects|
  {
    match objects[i]
    case Null => pointer == 0
    case Addressed(address) => pointer == address
    case Held(contents) =>
      && start <= pointer && pointer - start + |contents| <= |Blob(objects)|
      && Blob(objects)[pointer - start..pointer - start + |contents|] == contents
  }

  /**
   What the callee gets is what was passed, for every argument list, exactly for the arguments that
   are not null: a null argument has offset 0 and arrives as a pointer to the start of the block.
   */
  lemma PointersMeanTheObjects(objects: seq<Object>, i: nat, start: nat)
    requires i < |objects| && start > 0
    ensures Means(objects, i, start, PointerFor(OffsetOf(objects, i), AddressOf(objects[i]), start)) <==>
              !objects[i].Null?
  {
    if objects[i].Held? {
      HeldObjectsAreAtTheirOffsets(objects, i);
    }
  }
}
