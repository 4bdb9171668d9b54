/**
 * The byte image of the glTF buffer. The exporter copies `float` arrays into
 * the buffer through a pointer cast, four bytes per value; raw bytes (PNG data,
 * alignment padding) are copied as they are. The four bytes of a float are kept
 * abstract here: lane k stands for the k-th byte of the value's encoding.
 */
module FloatBytes {
  import opened Wrappers

  /** `sizeof(float)`. */
  const FLOAT_SIZE: nat := 4

  datatype Octet = Raw(b: bv8) | FloatLane(value: real, lane: nat)

  function EncodeFloat(f: real): (r: seq<Octet>)
  {
    [FloatLane(f, 0), FloatLane(f, 1), FloatLane(f, 2), FloatLane(f, 3)]
  }

  /** The bytes of a float array, in array order. */
  function EncodeFloats(fs: seq<real>): (r: seq<Octet>)
    ensures |r| == FLOAT_SIZE * |fs|
  {
    if fs == [] then [] else EncodeFloats(fs[..|fs| - 1]) + EncodeFloat(fs[|fs| - 1])
  }

  /** Bytes copied verbatim (PNG data). */
  function RawBytes(bs: seq<bv8>): (r: seq<Octet>)
    ensures |r| == |bs|
    ensures forall i :: 0 <= i < |bs| ==> r[i] == Raw(bs[i])
  {
    seq(|bs|, i requires 0 <= i < |bs| => Raw(bs[i]))
  }

  function DecodeFloat(bs: seq<Octet>): (r: Option<real>)
    requires |bs| == FLOAT_SIZE
    ensures r.Some? ==> bs == EncodeFloat(r.value)
  {
    if bs[0].FloatLane? && bs == EncodeFloat(bs[0].value) then Some(bs[0].value) else None
  }

  /** The float whose four bytes start at `offset`, if those bytes hold one. */
  function FloatAt(bs: seq<Octet>, offset: nat): Option<real>
  {
    if offset + FLOAT_SIZE <= |bs| then DecodeFloat(bs[offset..offset + FLOAT_SIZE]) else None
  }

  /** Reads a whole byte range back as floats. */
  function DecodeFloats(bs: seq<Octet>): (r: Option<seq<real>>)
    ensures r.Some? ==> FLOAT_SIZE * |r.value| == |bs|
  {
    if |bs| < FLOAT_SIZE then (if bs == [] then Some([]) else None)
    else
      match (DecodeFloats(bs[..|bs| - FLOAT_SIZE]), DecodeFloat(bs[|bs| - FLOAT_SIZE..]))
      case (Some(fs), Some(f)) => Some(fs + [f])
      case _ => None
  }

  lemma {:induction false} EncodeFloatsAt(fs: seq<real>, j: nat)
    requires j < |fs|
    ensures EncodeFloats(fs)[FLOAT_SIZE * j..FLOAT_SIZE * j + FLOAT_SIZE] == EncodeFloat(fs[j])
  {
    var init := fs[..|fs| - 1];
    if j < |fs| - 1 {
      EncodeFloatsAt(init, j);
      assert EncodeFloats(fs)[..FLOAT_SIZE * |init|] == EncodeFloats(init);
    }
  }

  /** Reading back the float at index j of an encoded array gives fs[j]. */
  lemma FloatAtEncode(fs: seq<real>, j: nat)
    requires j < |fs|
    ensures FloatAt(EncodeFloats(fs), FLOAT_SIZE * j) == Some(fs[j])
  {
    EncodeFloatsAt(fs, j);
  }

  /** Decoding inverts encoding. */
  lemma {:induction false} DecodeEncode(fs: seq<real>)
    ensures DecodeFloats(EncodeFloats(fs)) == Some(fs)
  {
    if fs != [] {
      var bs := EncodeFloats(fs);
      var init := fs[..|fs| - 1];
      assert bs[..|bs| - FLOAT_SIZE] == EncodeFloats(init);
      assert bs[|bs| - FLOAT_SIZE..] == EncodeFloat(fs[|fs| - 1]);
      DecodeEncode(init);
      assert init + [fs[|fs| - 1]] == fs;
    }
  }

  lemma {:induction false} EncodeFloatsAppend(a: seq<real>, b: seq<real>)
    ensures EncodeFloats(a + b) == EncodeFloats(a) + EncodeFloats(b)
  {
    if b != [] {
      assert (a + b)[..|a + b| - 1] == a + b[..|b| - 1];
      EncodeFloatsAppend(a, b[..|b| - 1]);
    } else {
      assert a + b == a;
    }
  }
}
