/**
 What the two ends of a file transfer hash into their session key.

 The key derivation itself is a hash of this material, so equal material gives equal keys.
 */
module SessionKey {
  import opened Common

  type Id = seq<byte>

  type StaticKey = k: seq<byte> | |k| == 32 witness seq(32, _ => 0)

  /** `<=` on strings: byte by byte. */
  function AtMost(a: Id, b: Id): bool
    decreases |a|
  {
    a == [] || (b != [] && (a[0] < b[0] || (a[0] == b[0] && AtMost(a[1..], b[1..]))))
  }

  function KeyBytes(k: Option<StaticKey>): seq<byte> {
    match k
    case Some(bytes) => bytes
    case None => []
  }

  /** Each identity followed by that side's static key if it is known, the smaller identity first. */
  function Material(localId: Id, localKey: Option<StaticKey>, peerId: Id, remoteKey: Option<StaticKey>): seq<byte> {
    if AtMost(localId, peerId) then localId + KeyBytes(localKey) + peerId + KeyBytes(remoteKey)
    else peerId + KeyBytes(remoteKey) + localId + KeyBytes(localKey)
  }

  lemma {:induction false} AtMostOneWay(a: Id, b: Id)
    ensures AtMost(a, b) || AtMost(b, a)
    ensures AtMost(a, b) && AtMost(b, a) ==> a == b
    decreases |a|
  {
    if a != [] && b != [] && a[0] == b[0] {
      AtMostOneWay(a[1..], b[1..]);
      assert a == [a[0]] + a[1..] && b == [b[0]] + b[1..];
    }
  }

  lemma SamePieces(a: seq<byte>, k: StaticKey, b: seq<byte>, l: StaticKey, k': StaticKey, l': StaticKey)
    ensures a + k + b + l == a + k' + b + l' <==> k == k' && l == l'
  {
    var x, y := a + k + b + l, a + k' + b + l';
    assert x[|a|..|a| + 32] == k && y[|a|..|a| + 32] == k';
    assert x[|a| + 32 + |b|..] == l && y[|a| + 32 + |b|..] == l';
  }

  /** Two different devices that know all four keys hash the same material exactly if each has the
      other's right key on record. */
  lemma SameMaterialIff(a: Id, b: Id, keyA: StaticKey, keyB: StaticKey, recordOfA: StaticKey, recordOfB: StaticKey)
    requires a != b
    ensures Material(a, Some(keyA), b, Some(recordOfB)) == Material(b, Some(keyB), a, Some(recordOfA))
            <==> recordOfA == keyA && recordOfB == keyB
  {
    AtMostOneWay(a, b);
    if AtMost(a, b) {
      SamePieces(a, keyA, b, recordOfB, recordOfA, keyB);
    } else {
      SamePieces(b, recordOfB, a, keyA, keyB, recordOfA);
    }
  }

  /** A device whose record of the other is missing never hashes what the other does. */
  lemma MissingRecordDiffers(a: Id, b: Id, keyA: StaticKey, keyB: StaticKey, recordOfA: StaticKey)
    ensures Material(a, Some(keyA), b, None) != Material(b, Some(keyB), a, Some(recordOfA))
  {
    assert |Material(a, Some(keyA), b, None)| == |a| + |b| + 32;
    assert |Material(b, Some(keyB), a, Some(recordOfA))| == |a| + |b| + 64;
  }
}
