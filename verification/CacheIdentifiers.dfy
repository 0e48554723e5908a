/** Cache identifiers: parts behind their lengths, so that no two part lists share one. */
module CacheIdentifiers {
  import opened Options

  newtype byte = x: int | 0 <= x < 256

  type Bytes = seq<byte>

  // ---- little-endian lengths ----

  function Power256(k: nat): nat {
    if k == 0 then 1 else 256 * Power256(k - 1)
  }

  /** The low `width` bytes of a number, lowest first; higher ones are cut off, as in a cast to u64. */
  function LittleEndian(n: nat, width: nat): (bytes: Bytes)
    ensures |bytes| == width
  {
    if width == 0 then [] else [(n % 256) as byte] + LittleEndian(n / 256, width - 1)
  }

  function Number(bytes: Bytes): nat {
    if bytes == [] then 0 else bytes[0] as nat + 256 * Number(bytes[1..])
  }

  lemma {:induction false} LittleEndianRoundTrip(n: nat, width: nat)
    requires n < Power256(width)
    ensures Number(LittleEndian(n, width)) == n
  {
    if width > 0 {
      LittleEndianRoundTrip(n / 256, width - 1);
      assert LittleEndian(n, width)[1..] == LittleEndian(n / 256, width - 1);
    }
  }

  lemma {:induction false} NumberRoundTrip(bytes: Bytes)
    ensures Number(bytes) < Power256(|bytes|) && LittleEndian(Number(bytes), |bytes|) == bytes
  {
    if bytes != [] {
      NumberRoundTrip(bytes[1..]);
      assert Number(bytes) % 256 == bytes[0] as nat && Number(bytes) / 256 == Number(bytes[1..]);
    }
  }

  const WIDTH: nat := 8

  /** A length that a 64-bit machine can have. */
  predicate Fits(part: Bytes) { |part| < Power256(WIDTH) }

  // ---- encoding and decoding ----

  function EncodePart(part: Bytes): Bytes {
    LittleEndian(|part|, WIDTH) + part
  }

  function Encode(parts: seq<Bytes>): Bytes {
    if parts == [] then [] else EncodePart(parts[0]) + Encode(parts[1..])
  }

  function Decode(bytes: Bytes): Option<seq<Bytes>>
    decreases |bytes|
  {
    if bytes == [] then Some([])
    else if |bytes| < WIDTH then None
    else
      var length := Number(bytes[..WIDTH]);
      if |bytes| - WIDTH < length then None
      else
        var rest := Decode(bytes[WIDTH + length..]);
        if rest.None? then None else Some([bytes[WIDTH..WIDTH + length]] + rest.value)
  }

  lemma DecodePart(part: Bytes, rest: Bytes)
    requires Fits(part)
    ensures Decode(EncodePart(part) + rest) ==
            if Decode(rest).None? then None else Some([part] + Decode(rest).value)
  {
    var bytes := EncodePart(part) + rest;
    LittleEndianRoundTrip(|part|, WIDTH);
    assert bytes[..WIDTH] == LittleEndian(|part|, WIDTH);
    assert bytes[WIDTH..WIDTH + |part|] == part;
    assert bytes[WIDTH + |part|..] == rest;
  }

  lemma {:induction false} DecodeEncode(parts: seq<Bytes>)
    requires forall part | part in parts :: Fits(part)
    ensures Decode(Encode(parts)) == Some(parts)
  {
    if parts != [] {
      assert parts[0] in parts;
      DecodeEncode(parts[1..]);
      DecodePart(parts[0], Encode(parts[1..]));
      assert parts == [parts[0]] + parts[1..];
    }
  }

  /** Only identifiers decode: what decodes is the identifier of its parts. */
  lemma {:induction false} EncodeDecode(bytes: Bytes)
    requires Decode(bytes).Some?
    ensures Encode(Decode(bytes).value) == bytes
    decreases |bytes|
  {
    if bytes != [] {
      var length := Number(bytes[..WIDTH]);
      EncodeDecode(bytes[WIDTH + length..]);
      NumberRoundTrip(bytes[..WIDTH]);
      var parts := Decode(bytes).value;
      assert parts[0] == bytes[WIDTH..WIDTH + length] && parts[1..] == Decode(bytes[WIDTH + length..]).value;
      assert bytes == bytes[..WIDTH] + bytes[WIDTH..WIDTH + length] + bytes[WIDTH + length..];
    }
  }

  /** Distinct part lists have distinct identifiers. */
  lemma EncodeInjective(a: seq<Bytes>, b: seq<Bytes>)
    requires (forall part | part in a :: Fits(part)) && (forall part | part in b :: Fits(part))
    requires Encode(a) == Encode(b)
    ensures a == b
  {
    DecodeEncode(a);
    DecodeEncode(b);
  }

  lemma {:induction false} EncodeSnoc(parts: seq<Bytes>, part: Bytes)
    ensures Encode(parts + [part]) == Encode(parts) + EncodePart(part)
  {
    if parts == [] {
      assert parts + [part] == [part] && [part][1..] == [];
    } else {
      assert (parts + [part])[0] == parts[0] && (parts + [part])[1..] == parts[1..] + [part];
      EncodeSnoc(parts[1..], part);
    }
  }

  method FromParts(parts: seq<Bytes>) returns (bytes: Bytes)
    ensures bytes == Encode(parts)
  {
    bytes := [];
    var i := 0;
    while i < |parts|
      invariant i <= |parts| && bytes == Encode(parts[..i])
    {
      EncodeSnoc(parts[..i], parts[i]);
      assert parts[..i + 1] == parts[..i] + [parts[i]];
      bytes := bytes + LittleEndian(|parts[i]|, WIDTH);
      bytes := bytes + parts[i];
      i := i + 1;
    }
    assert parts[..i] == parts;
  }

  /** The same bytes, in a buffer whose capacity is computed first and is exact. */
  method FromBorrowedParts(parts: seq<Bytes>) returns (bytes: Bytes, capacity: nat)
    ensures bytes == Encode(parts) && capacity == |bytes|
  {
    capacity := 0;
    var i := 0;
    while i < |parts|
      invariant i <= |parts| && capacity == |Encode(parts[..i])|
    {
      EncodeSnoc(parts[..i], parts[i]);
      assert parts[..i + 1] == parts[..i] + [parts[i]];
      capacity := capacity + WIDTH + |parts[i]|;
      i := i + 1;
    }
    assert parts[..i] == parts;
    bytes := FromParts(parts);
  }

  // ---- keys ----

  datatype ModuleType = JavaScriptAuto | Json | Asset | AssetResource | AssetInline | AssetSource

  /** Texts are their bytes. */
  datatype ModuleIdentity = ModuleIdentity(
    moduleType: ModuleType, resource: Bytes, query: Option<Bytes>, fragment: Option<Bytes>, layer: Option<Bytes>,
    loaders: seq<Bytes>)

  /** ASCII only, as the type names are. */
  function Ascii(s: string): (bytes: Bytes)
    ensures |bytes| == |s|
    ensures forall i | 0 <= i < |s| :: s[i] as int < 256 ==> bytes[i] as int == s[i] as int
  {
    seq(|s|, i requires 0 <= i < |s| => (s[i] as int % 256) as byte)
  }

  function TypeKey(t: ModuleType): string {
    match t
    case JavaScriptAuto => "javascript/auto"
    case Json => "json"
    case Asset => "asset"
    case AssetResource => "asset/resource"
    case AssetInline => "asset/inline"
    case AssetSource => "asset/source"
  }

  function OptionalPart(value: Option<Bytes>): (part: Bytes)
    ensures |part| > 0 && (part[0] == 1 <==> value.Some?)
  {
    if value.Some? then [1] + value.value else [0]
  }

  function IdentityParts(m: ModuleIdentity): seq<Bytes> {
    [Ascii(TypeKey(m.moduleType)), m.resource, OptionalPart(m.query), OptionalPart(m.fragment), OptionalPart(m.layer),
     LittleEndian(|m.loaders|, WIDTH)] + m.loaders
  }

  /** Every text of an identity, with a flag byte to spare, has a length that a 64-bit machine can have. */
  predicate IdentityFits(m: ModuleIdentity) {
    forall part | part in IdentityParts(m) :: Fits(part)
  }

  lemma OptionalPartInjective(a: Option<Bytes>, b: Option<Bytes>)
    requires OptionalPart(a) == OptionalPart(b)
    ensures a == b
  {
    if a.Some? && b.Some? {
      assert OptionalPart(a)[1..] == a.value && OptionalPart(b)[1..] == b.value;
    }
  }

  lemma TypeKeyInjective(a: ModuleType, b: ModuleType)
    requires Ascii(TypeKey(a)) == Ascii(TypeKey(b))
    ensures a == b
  {
    var x, y := TypeKey(a), TypeKey(b);
    assert |x| == |y|;
    if a == AssetInline || a == AssetSource {
      assert Ascii(x)[6] as int == x[6] as int && Ascii(y)[6] as int == y[6] as int;
    }
  }

  /** Distinct module identities never share an identifier, whatever they leave out and however many loaders they have. */
  lemma IdentityInjective(a: ModuleIdentity, b: ModuleIdentity)
    requires IdentityFits(a) && IdentityFits(b)
    requires Encode(IdentityParts(a)) == Encode(IdentityParts(b))
    ensures a == b
  {
    EncodeInjective(IdentityParts(a), IdentityParts(b));
    var p, q := IdentityParts(a), IdentityParts(b);
    assert p[0] == q[0] && p[1] == q[1] && p[2] == q[2] && p[3] == q[3] && p[4] == q[4];
    TypeKeyInjective(a.moduleType, b.moduleType);
    OptionalPartInjective(a.query, b.query);
    OptionalPartInjective(a.fragment, b.fragment);
    OptionalPartInjective(a.layer, b.layer);
    assert p[6..] == a.loaders && q[6..] == b.loaders;
  }

  method ModuleIdentifier(m: ModuleIdentity) returns (identifier: Bytes)
    ensures identifier == Encode(IdentityParts(m))
    ensures IdentityFits(m) ==> Decode(identifier) == Some(IdentityParts(m))
  {
    var capacity: nat;
    identifier, capacity := FromBorrowedParts(IdentityParts(m));
    if IdentityFits(m) { DecodeEncode(IdentityParts(m)); }
  }
}
