/**
The streaming TLS marker scanner of executable fingerprinting. Each chunk is
scanned together with the last 64 bytes before it, lowercased; the theorem is
that how the file was cut into chunks never matters.
*/
module TlsMarkers {
  import opened Bytes

  datatype Marker =
    | BoringSsl | Rustls | OpenSsl | OpenSslDependency | GnuTlsDependency | NssDependency
    | GoBuildInfo | GoCryptoTls

  const TAIL_BYTES: nat := 64

  const BORINGSSL: seq<Byte> := [98, 111, 114, 105, 110, 103, 115, 115, 108]                       // boringssl
  const RUSTLS: seq<Byte> := [114, 117, 115, 116, 108, 115]                                        // rustls
  const OPENSSL_1: seq<Byte> := [111, 112, 101, 110, 115, 115, 108, 32, 49, 46]                    // openssl 1.
  const OPENSSL_3: seq<Byte> := [111, 112, 101, 110, 115, 115, 108, 32, 51, 46]                    // openssl 3.
  const LIBSSL: seq<Byte> := [108, 105, 98, 115, 115, 108, 46, 115, 111]                           // libssl.so
  const LIBCRYPTO: seq<Byte> := [108, 105, 98, 99, 114, 121, 112, 116, 111, 46, 115, 111]          // libcrypto.so
  const LIBGNUTLS: seq<Byte> := [108, 105, 98, 103, 110, 117, 116, 108, 115, 46, 115, 111]         // libgnutls.so
  const LIBNSS: seq<Byte> := [108, 105, 98, 110, 115, 115, 51, 46, 115, 111]                       // libnss3.so
  const GO_BUILDINF: seq<Byte> :=
    [255, 32, 103, 111, 32, 98, 117, 105, 108, 100, 105, 110, 102, 58]                             // \xff go buildinf:
  const CRYPTO_TLS: seq<Byte> := [99, 114, 121, 112, 116, 111, 47, 116, 108, 115]                  // crypto/tls

  function Patterns(m: Marker): (p: set<seq<Byte>>)
    ensures forall x :: x in p ==> 0 < |x| <= TAIL_BYTES
  {
    match m
    case BoringSsl => {BORINGSSL}
    case Rustls => {RUSTLS}
    case OpenSsl => {OPENSSL_1, OPENSSL_3}
    case OpenSslDependency => {LIBSSL, LIBCRYPTO}
    case GnuTlsDependency => {LIBGNUTLS}
    case NssDependency => {LIBNSS}
    case GoBuildInfo => {GO_BUILDINF}
    case GoCryptoTls => {CRYPTO_TLS}
  }

  // ------------------------------------------------------- specification

  predicate OccursAt(s: seq<Byte>, p: seq<Byte>, i: nat) {
    i + |p| <= |s| && s[i..i + |p|] == p
  }

  ghost predicate Contains(s: seq<Byte>, m: Marker) {
    exists p, i: nat :: p in Patterns(m) && OccursAt(s, p, i)
  }

  function LowerByte(b: Byte): Byte { if 65 <= b <= 90 then b + 32 else b }

  function Lower(s: seq<Byte>): (r: seq<Byte>)
    ensures |r| == |s| && forall i :: 0 <= i < |s| ==> r[i] == LowerByte(s[i])
  {
    if s == [] then [] else [LowerByte(s[0])] + Lower(s[1..])
  }

  /** The last `min(64, n)` bytes. */
  function Tail(s: seq<Byte>): seq<Byte> {
    if |s| <= TAIL_BYTES then s else s[|s| - TAIL_BYTES..]
  }

  ghost predicate Exactly(found: set<Marker>, s: seq<Byte>) {
    forall m :: m in found <==> Contains(s, m)
  }

  // ------------------------------------------------------------- lemmas

  lemma {:induction false} LowerConcat(a: seq<Byte>, b: seq<Byte>)
    ensures Lower(a + b) == Lower(a) + Lower(b)
  {}

  lemma {:induction false} OccursInPrefix(s: seq<Byte>, more: seq<Byte>, p: seq<Byte>, i: nat)
    requires OccursAt(s, p, i)
    ensures OccursAt(s + more, p, i)
  {
    assert (s + more)[i..i + |p|] == s[i..i + |p|];
  }

  lemma {:induction false} OccursInSuffix(s: seq<Byte>, from: nat, p: seq<Byte>, i: nat)
    requires from <= |s| && OccursAt(s[from..], p, i)
    ensures OccursAt(s, p, from + i)
  {
    assert s[from + i..from + i + |p|] == s[from..][i..i + |p|];
  }

  /** An occurrence in `a + b` lies in `a` or starts in the last 64 bytes of `a`. */
  lemma {:induction false} OccurrenceSurvivesCut(a: seq<Byte>, b: seq<Byte>, p: seq<Byte>, i: nat)
    requires 0 < |p| <= TAIL_BYTES && OccursAt(a + b, p, i)
    ensures OccursAt(a, p, i) || exists j: nat :: OccursAt(Tail(a) + b, p, j)
  {
    if i + |p| <= |a| {
      assert a[i..i + |p|] == (a + b)[i..i + |p|];
    } else {
      var cut := |a| - |Tail(a)|;
      assert Tail(a) + b == (a + b)[cut..];
      assert i >= cut;
      assert (Tail(a) + b)[i - cut..i - cut + |p|] == (a + b)[i..i + |p|];
      assert OccursAt(Tail(a) + b, p, i - cut);
    }
  }

  /** Scanning the kept tail with the next chunk finds exactly what the whole
      stream gains. */
  lemma {:induction false} TailIsEnough(a: seq<Byte>, b: seq<Byte>, m: Marker)
    ensures Contains(a + b, m) <==> Contains(a, m) || Contains(Tail(a) + b, m)
  {
    if Contains(a, m) {
      var p, i: nat :| p in Patterns(m) && OccursAt(a, p, i);
      OccursInPrefix(a, b, p, i);
    }
    if Contains(Tail(a) + b, m) {
      var p, i: nat :| p in Patterns(m) && OccursAt(Tail(a) + b, p, i);
      var cut := |a| - |Tail(a)|;
      assert Tail(a) + b == (a + b)[cut..];
      OccursInSuffix(a + b, cut, p, i);
    }
    if Contains(a + b, m) {
      var p, i: nat :| p in Patterns(m) && OccursAt(a + b, p, i);
      OccurrenceSurvivesCut(a, b, p, i);
    }
  }

  lemma {:induction false} TailOfTail(a: seq<Byte>, b: seq<Byte>)
    ensures Tail(Tail(a) + b) == Tail(a + b)
  {}

  // ---------------------------------------------------------- the scanner

  ghost predicate StartsMarker(s: seq<Byte>, i: nat, m: Marker) {
    exists p :: p in Patterns(m) && OccursAt(s, p, i)
  }

  /** The match on the first byte, and the patterns tried behind it. */
  function MarkerAt(s: seq<Byte>, i: nat): set<Marker>
    requires i < |s|
  {
    var first := s[i];
    if first == 98 && OccursAt(s, BORINGSSL, i) then {BoringSsl}
    else if first == 114 && OccursAt(s, RUSTLS, i) then {Rustls}
    else if first == 111 && (OccursAt(s, OPENSSL_1, i) || OccursAt(s, OPENSSL_3, i)) then {OpenSsl}
    else if first == 108 && (OccursAt(s, LIBSSL, i) || OccursAt(s, LIBCRYPTO, i)) then {OpenSslDependency}
    else if first == 108 && OccursAt(s, LIBGNUTLS, i) then {GnuTlsDependency}
    else if first == 108 && OccursAt(s, LIBNSS, i) then {NssDependency}
    else if first == 255 && OccursAt(s, GO_BUILDINF, i) then {GoBuildInfo}
    else if first == 99 && OccursAt(s, CRYPTO_TLS, i) then {GoCryptoTls}
    else {}
  }

  lemma {:induction false} OccurrenceByte(s: seq<Byte>, p: seq<Byte>, i: nat, j: nat)
    requires OccursAt(s, p, i) && j < |p|
    ensures s[i + j] == p[j]
  {
    assert s[i..i + |p|][j] == s[i + j];
  }

  /** The four library names differ in their fourth byte. */
  lemma {:induction false} LibrariesExclude(s: seq<Byte>, i: nat, p: seq<Byte>, q: seq<Byte>)
    requires p in {LIBSSL, LIBCRYPTO, LIBGNUTLS, LIBNSS} && q in {LIBSSL, LIBCRYPTO, LIBGNUTLS, LIBNSS}
    requires OccursAt(s, p, i) && OccursAt(s, q, i)
    ensures p == q
  {
    OccurrenceByte(s, p, i, 3);
    OccurrenceByte(s, q, i, 3);
  }

  lemma {:induction false} PatternIsTried(s: seq<Byte>, i: nat, m: Marker, p: seq<Byte>)
    requires p in Patterns(m) && OccursAt(s, p, i)
    ensures i < |s| && m in MarkerAt(s, i)
  {
    OccurrenceByte(s, p, i, 0);
    if m.GnuTlsDependency? || m.NssDependency? {
      if OccursAt(s, LIBSSL, i) { LibrariesExclude(s, i, p, LIBSSL); }
      if OccursAt(s, LIBCRYPTO, i) { LibrariesExclude(s, i, p, LIBCRYPTO); }
      if m.NssDependency? && OccursAt(s, LIBGNUTLS, i) { LibrariesExclude(s, i, p, LIBGNUTLS); }
    }
  }

  /** Trying the patterns in order behind the first byte misses none. */
  lemma {:induction false} MarkerAtMissesNone(s: seq<Byte>, i: nat, m: Marker)
    requires i < |s|
    ensures m in MarkerAt(s, i) <==> StartsMarker(s, i, m)
  {
    if StartsMarker(s, i, m) {
      var p :| p in Patterns(m) && OccursAt(s, p, i);
      PatternIsTried(s, i, m, p);
    }
  }

  method FindTlsMarkers(bytes: seq<Byte>, before: set<Marker>) returns (found: set<Marker>)
    ensures forall m :: m in found <==> m in before || Contains(bytes, m)
  {
    found := before;
    for index := 0 to |bytes|
      invariant forall m :: m in found <==>
        m in before || exists i: nat :: i < index && StartsMarker(bytes, i, m)
    {
      forall m { MarkerAtMissesNone(bytes, index, m); }
      found := found + MarkerAt(bytes, index);
    }
    forall m ensures Contains(bytes, m) <==> exists i: nat :: i < |bytes| && StartsMarker(bytes, i, m) {
      if Contains(bytes, m) {
        var p, i: nat :| p in Patterns(m) && OccursAt(bytes, p, i);
        assert StartsMarker(bytes, i, m);
      }
    }
  }

  datatype Surface =
    | BoringSslBinary | RustlsBinary | GoCryptoTlsBinary | OpenSslBinary
    | OpenSslDynamic | GnuTlsDynamic | NssDynamic

  /** The markers that together establish a surface. */
  function Evidence(x: Surface): set<Marker> {
    match x
    case BoringSslBinary => {BoringSsl}
    case RustlsBinary => {Rustls}
    case GoCryptoTlsBinary => {GoBuildInfo, GoCryptoTls}
    case OpenSslBinary => {OpenSsl}
    case OpenSslDynamic => {OpenSslDependency}
    case GnuTlsDynamic => {GnuTlsDependency}
    case NssDynamic => {NssDependency}
  }

  lemma {:induction false} LowerTail(s: seq<Byte>)
    ensures Lower(Tail(Lower(s))) == Tail(Lower(s))
  {}

  /** One chunk on: the kept tail stays the tail of the stream and the markers
      found stay those of the stream. */
  lemma {:induction false} ChunkScanned(stream: seq<Byte>, bytes: seq<Byte>, before: set<Marker>, after: set<Marker>)
    requires Exactly(before, Lower(stream))
    requires forall m :: m in after <==>
      m in before || Contains(Lower(Tail(Lower(stream)) + bytes), m)
    ensures Exactly(after, Lower(stream + bytes))
    ensures Tail(Lower(Tail(Lower(stream)) + bytes)) == Tail(Lower(stream + bytes))
  {
    var a, b := Lower(stream), Lower(bytes);
    LowerConcat(Tail(a), bytes);
    LowerConcat(stream, bytes);
    LowerTail(stream);
    forall m { TailIsEnough(a, b, m); }
    TailOfTail(a, b);
  }

  /** A surface is reported exactly when all its evidence was found. */
  method SurfacesOf(found: set<Marker>) returns (surfaces: seq<Surface>)
    ensures forall x :: x in surfaces <==> Evidence(x) <= found
  {
    surfaces := [];
    if BoringSsl in found { surfaces := surfaces + [BoringSslBinary]; }
    if Rustls in found { surfaces := surfaces + [RustlsBinary]; }
    if GoBuildInfo in found && GoCryptoTls in found { surfaces := surfaces + [GoCryptoTlsBinary]; }
    if OpenSsl in found { surfaces := surfaces + [OpenSslBinary]; }
    if OpenSslDependency in found { surfaces := surfaces + [OpenSslDynamic]; }
    if GnuTlsDependency in found { surfaces := surfaces + [GnuTlsDynamic]; }
    if NssDependency in found { surfaces := surfaces + [NssDynamic]; }
  }

  method LastBytes(scan: seq<Byte>) returns (tail: seq<Byte>)
    ensures tail == Tail(scan)
  {
    var keep := if |scan| < TAIL_BYTES then |scan| else TAIL_BYTES;
    tail := scan[|scan| - keep..];
  }

  method ScanChunk(scan: seq<Byte>, bytes: seq<Byte>, before: set<Marker>, ghost stream: seq<Byte>)
    returns (found: set<Marker>)
    requires scan == Lower(Tail(Lower(stream)) + bytes) && Exactly(before, Lower(stream))
    ensures Exactly(found, Lower(stream + bytes)) && Tail(scan) == Tail(Lower(stream + bytes))
  {
    found := FindTlsMarkers(scan, before);
    ChunkScanned(stream, bytes, before, found);
  }

  class TlsMarkerScanner {
    var tail: seq<Byte>
    var found: set<Marker>
    ghost var stream: seq<Byte>  // every byte seen so far

    ghost predicate Valid()
      reads this
    {
      tail == Tail(Lower(stream)) && Exactly(found, Lower(stream))
    }

    constructor ()
      ensures Valid() && stream == []
    {
      tail, found, stream := [], {}, [];
    }

    method Update(bytes: seq<Byte>)
      requires Valid()
      modifies this
      ensures Valid() && stream == old(stream) + bytes
    {
      var scan := Lower(tail + bytes);
      found := ScanChunk(scan, bytes, found, stream);
      tail := LastBytes(scan);
      stream := stream + bytes;
    }

    /** The surfaces reported for the file. */
    method Finish() returns (surfaces: seq<Surface>)
      requires Valid()
      ensures Exactly(found, Lower(stream))
      ensures forall x :: x in surfaces <==> Evidence(x) <= found
    {
      surfaces := SurfacesOf(found);
    }
  }

  function Concat(chunks: seq<seq<Byte>>): seq<Byte> {
    if chunks == [] then [] else Concat(chunks[..|chunks| - 1]) + chunks[|chunks| - 1]
  }

  /** The read loop of `fingerprint_executable`: for every way of cutting a
      file into chunks the markers are those of the whole lowercased file. */
  method ScanChunks(chunks: seq<seq<Byte>>) returns (found: set<Marker>)
    ensures Exactly(found, Lower(Concat(chunks)))
  {
    var scanner := new TlsMarkerScanner();
    for n := 0 to |chunks|
      invariant scanner.Valid() && scanner.stream == Concat(chunks[..n])
    {
      assert chunks[..n + 1][..n] == chunks[..n];
      scanner.Update(chunks[n]);
    }
    assert chunks[..|chunks|] == chunks;
    found := scanner.found;
  }
}
