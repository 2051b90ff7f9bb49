/**
 * The Argon2id password-hash record and its string form, the PHC string
 * format used with Argon2 (RFC 9106):
 *   `$argon2id$v=19$m=<memory>,t=<iterations>,p=<parallelism>$<salt>$<hash>`
 * with salt and hash in unpadded standard base64.
 */
module PasswordHashing {
  import opened Wrappers
  import opened GoTypes
  import opened Text
  import Base64

  /**
   * The errors decodeHash can return: its own two, the error of `fmt.Sscanf`
   * on a malformed field, and base64's `CorruptInputError`.
   */
  datatype HashError = InvalidHash | IncompatibleVersion | ScanFailure | CorruptInput

  const AlgoName: string := "argon2id"

  /** `argon2.Version`: version 0x13 of section 3.1 of RFC 9106. */
  const Argon2Version: int := 0x13

  datatype Params = Params(
    memory: uint32,
    iterations: uint32,
    parallelism: uint8,
    saltLength: uint32,
    keyLength: uint32)

  datatype PasswordHash = PasswordHash(hash: seq<byte>, salt: seq<byte>, params: Params)

  /** Go's zero values `Params{}` and `PasswordHash{}` (nil slices are empty). */
  const ZeroParams: Params := Params(0, 0, 0, 0, 0)
  const ZeroHash: PasswordHash := PasswordHash([], [], ZeroParams)

  /** `NewPasswordParams`: the five cost and length settings, in order. */
  function NewPasswordParams(
    memory: uint32, iterations: uint32, parallelism: uint8, saltLength: uint32, keyLength: uint32): (p: Params)
    ensures p.memory == memory && p.iterations == iterations && p.parallelism == parallelism
    ensures p.saltLength == saltLength && p.keyLength == keyLength
  {
    Params(memory, iterations, parallelism, saltLength, keyLength)
  }

  /**
   * `(*PasswordHash).String`. The `Sprintf` format has a `$` before each of
   * its five fields, so its text is the six strings below joined by `$`,
   * the first of them empty. None of the six holds a `$`, so splitting the
   * text at `$` gives them back.
   */
  function String(h: PasswordHash): (s: string)
    ensures Split(s, '$') == Fields(h)
  {
    FieldsHaveNoDollar(h);
    SplitJoin(Fields(h), '$');
    Join(Fields(h), '$')
  }

  /** The `m=..,t=..,p=..` field of String. */
  function ParamsField(p: Params): string
  {
    "m=" + (FormatInt(p.memory) + (",t=" + (FormatInt(p.iterations) + (",p=" + FormatInt(p.parallelism)))))
  }

  /** The text before the first `$`, then the five fields String writes. */
  function Fields(h: PasswordHash): seq<string>
  {
    ["", AlgoName, "v=" + FormatInt(Argon2Version), ParamsField(h.params),
     Base64.Encode(h.salt), Base64.Encode(h.hash)]
  }

  /** `fmt.Sscanf(field, "v=%d", &version)` with `version` an `int`. */
  function ScanVersion(field: string): (r: Option<int>)
    ensures r.Some? ==> "v=" <= field && MinInt <= r.value <= MaxInt
  {
    match ScanVerb("v=", field, true, MinInt, MaxInt)
    case None => None
    case Some((v, _)) => Some(v)
  }

  /**
   * `fmt.Sscanf(field, "m=%d,t=%d,p=%d", &memory, &iterations, &parallelism)`
   * into a `uint32`, a `uint32` and a `uint8`; input after the last number is
   * not looked at.
   */
  function ScanParams(field: string): (r: Option<(uint32, uint32, uint8)>)
    ensures r.Some? ==> "m=" <= field
  {
    var m := ScanVerb("m=", field, false, 0, Two32 - 1);
    if m.None? then None
    else
      var t := ScanVerb(",t=", m.value.1, false, 0, Two32 - 1);
      if t.None? then None
      else
        var p := ScanVerb(",p=", t.value.1, false, 0, Two8 - 1);
        if p.None? then None
        else Some((m.value.0, t.value.0, p.value.0))
  }

  datatype Decoded = Decoded(params: Params, salt: seq<byte>, hash: seq<byte>)

  /**
   * `decodeHash`. The first two fields (the empty text before the first `$`
   * and the algorithm name) are never looked at. The version must read as
   * 19; the salt and key lengths are those of the decoded bytes.
   */
  function DecodeHash(encoded: string): (r: Result<Decoded, HashError>)
    ensures |Split(encoded, '$')| != 6 ==> r == Err(InvalidHash)
    ensures r == Err(IncompatibleVersion) <==>
      |Split(encoded, '$')| == 6 && ScanVersion(Split(encoded, '$')[2]).Some?
      && ScanVersion(Split(encoded, '$')[2]).value != Argon2Version
    ensures r.Ok? ==>
      r.value.params.saltLength == ToUint32(|r.value.salt|) && r.value.params.keyLength == ToUint32(|r.value.hash|)
    ensures r.Ok? ==>
      Base64.Decode(Split(encoded, '$')[4]) == Some(r.value.salt) && Base64.Decode(Split(encoded, '$')[5]) == Some(r.value.hash)
    ensures r.Ok? ==>
      ScanVersion(Split(encoded, '$')[2]) == Some(Argon2Version)
      && ScanParams(Split(encoded, '$')[3]) == Some((r.value.params.memory, r.value.params.iterations, r.value.params.parallelism))
  {
    var vals := Split(encoded, '$');
    if |vals| != 6 then Err(InvalidHash)
    else
      match ScanVersion(vals[2])
      case None => Err(ScanFailure)
      case Some(version) =>
        if version != Argon2Version then Err(IncompatibleVersion)
        else
          match ScanParams(vals[3])
          case None => Err(ScanFailure)
          case Some((m, t, p)) =>
            match Base64.Decode(vals[4])
            case None => Err(CorruptInput)
            case Some(salt) =>
              match Base64.Decode(vals[5])
              case None => Err(CorruptInput)
              case Some(hash) => Ok(Decoded(Params(m, t, p, ToUint32(|salt|), ToUint32(|hash|)), salt, hash))
  }

  /** `LoadPasswordHash`: the decoded hash, or Go's zero value together with the error. */
  function LoadPasswordHash(hashedValue: string): (r: (PasswordHash, Option<HashError>))
    ensures r.1.Some? <==> DecodeHash(hashedValue).Err?
    ensures r.1.Some? ==> r.0 == ZeroHash && r.1.value == DecodeHash(hashedValue).error
    ensures r.1.None? ==> var d := DecodeHash(hashedValue).value;
      r.0.hash == d.hash && r.0.salt == d.salt && r.0.params == d.params
  {
    match DecodeHash(hashedValue)
    case Err(e) => (ZeroHash, Some(e))
    case Ok(d) => (PasswordHash(d.hash, d.salt, d.params), None)
  }

  /** `(*PasswordHash).Compare`: byte equality of the two hashes (`subtle.ConstantTimeCompare`). */
  function Compare(h: PasswordHash, other: PasswordHash): (r: bool)
    ensures r <==> |h.hash| == |other.hash| && forall i :: 0 <= i < |h.hash| ==> h.hash[i] == other.hash[i]
  {
    h.hash == other.hash
  }

  /** `(*PasswordHash).CompareHash`: load the string form, then compare. */
  function CompareHash(h: PasswordHash, hash: string): (r: (bool, Option<HashError>))
    ensures r.1.Some? ==> !r.0 && DecodeHash(hash) == Err(r.1.value)
    ensures r.1.None? <==> DecodeHash(hash).Ok?
    ensures r.1.None? ==> (r.0 <==> DecodeHash(hash).value.hash == h.hash)
  {
    var (password, err) := LoadPasswordHash(hash);
    if err.Some? then (false, err) else (Compare(h, password), None)
  }

  /**
   * A `PasswordHash` held behind a pointer, as the JSON decoder fills it
   * in: its three fields are assigned in place.
   */
  class PasswordHashCell {
    var hash: seq<byte>
    var salt: seq<byte>
    var params: Params

    /** The value the fields currently hold. */
    function Value(): PasswordHash
      reads this
    {
      PasswordHash(hash, salt, params)
    }

    constructor (h: PasswordHash)
      ensures Value() == h
    {
      hash := h.hash;
      salt := h.salt;
      params := h.params;
    }

    /**
     * `(*PasswordHash).UnmarshalJSON`, given the already unquoted JSON
     * string: on a decode error the fields are kept, otherwise all three
     * are replaced by the decoded ones.
     */
    method UnmarshalJSON(v: string) returns (err: Option<HashError>)
      modifies this
      ensures err.Some? ==> Value() == old(Value()) && DecodeHash(v) == Err(err.value)
      ensures err.None? ==> DecodeHash(v).Ok? && Value() == LoadPasswordHash(v).0
    {
      var decoded := DecodeHash(v);
      if decoded.Err? {
        return Some(decoded.error);
      }
      params := decoded.value.params;
      salt := decoded.value.salt;
      hash := decoded.value.hash;
      err := None;
    }
  }

  // ---------------------------------------------------------------------------
  // The string form and its parser are inverse
  // ---------------------------------------------------------------------------

  /** None of String's fields holds a `$`. */
  lemma FieldsHaveNoDollar(h: PasswordHash)
    ensures forall i :: 0 <= i < |Fields(h)| ==> '$' !in Fields(h)[i]
  {
    var f := Fields(h);
    assert '$' !in FormatInt(Argon2Version);
    assert '$' !in FormatInt(h.params.memory);
    assert '$' !in FormatInt(h.params.iterations);
    assert '$' !in FormatInt(h.params.parallelism);
    assert '$' !in f[2];
    assert '$' !in f[3];
    assert '$' !in f[4] by {
      forall k | 0 <= k < |f[4]| ensures f[4][k] != '$' { assert Base64.InAlphabet(f[4][k]); }
    }
    assert '$' !in f[5] by {
      forall k | 0 <= k < |f[5]| ensures f[5][k] != '$' { assert Base64.InAlphabet(f[5][k]); }
    }
  }

  /** Every version number `v=N` reads back as N; in particular String's `v=19`. */
  lemma ScanVersionOfInt(v: int)
    requires MinInt <= v <= MaxInt
    ensures ScanVersion("v=" + FormatInt(v)) == Some(v)
  {
    ScanVerbOfFormat("v=", v, [], true, MinInt, MaxInt);
    assert "v=" + (FormatInt(v) + []) == "v=" + FormatInt(v);
  }

  /**
   * `v=` followed by any number `%d` reads into an `int`: blanks other than a
   * newline, a sign, leading zeros; the text after the digits is not looked at.
   */
  lemma ScanVersionOfDigits(pre: string, sign: string, d: string, rest: string)
    requires AllSpace(pre) && '\n' !in pre
    requires sign == [] || sign == "+" || sign == "-"
    requires d != [] && AllDigits(d)
    requires MinInt <= (if sign == "-" then -(DigitsValue(d) as int) else DigitsValue(d)) <= MaxInt
    requires rest == [] || !IsDigit(rest[0])
    ensures ScanVersion("v=" + (pre + (sign + (d + rest))))
      == Some(if sign == "-" then -(DigitsValue(d) as int) else DigitsValue(d))
  {
    ScanVerbOfDigits("v=", pre, sign, d, rest, true, MinInt, MaxInt);
  }

  /** One `%d` verb into an unsigned variable: blanks, then digits whose value fits below `bound`. */
  lemma ScanUnsignedVerb(lit: string, pre: string, d: string, tail: string, bound: int)
    requires AllSpace(pre) && '\n' !in pre
    requires d != [] && AllDigits(d) && DigitsValue(d) < bound
    requires tail == [] || !IsDigit(tail[0])
    ensures ScanVerb(lit, lit + (pre + (d + tail)), false, 0, bound - 1) == Some((DigitsValue(d) as int, tail))
  {
    var body := d + tail;
    assert [] + body == body;
    ScanVerbOfDigits(lit, pre, [], d, tail, false, 0, bound - 1);
  }

  /**
   * The parameter field with any numbers `%d` reads into the three unsigned
   * variables: blanks other than a newline before each, leading zeros, and
   * any text after the last that does not start with a digit.
   */
  lemma ScanParamsOfDigits(pm: string, dm: string, pt: string, dt: string, pp: string, dp: string, rest: string,
                           m: uint32, t: uint32, q: uint8)
    requires AllSpace(pm) && '\n' !in pm && AllSpace(pt) && '\n' !in pt && AllSpace(pp) && '\n' !in pp
    requires dm != [] && AllDigits(dm) && DigitsValue(dm) == m
    requires dt != [] && AllDigits(dt) && DigitsValue(dt) == t
    requires dp != [] && AllDigits(dp) && DigitsValue(dp) == q
    requires rest == [] || !IsDigit(rest[0])
    ensures ScanParams("m=" + (pm + (dm + (",t=" + (pt + (dt + (",p=" + (pp + (dp + rest))))))))) == Some((m, t, q))
  {
    var tail2 := ",p=" + (pp + (dp + rest));
    var tail1 := ",t=" + (pt + (dt + tail2));
    var field := "m=" + (pm + (dm + tail1));
    assert ScanVerb("m=", field, false, 0, Two32 - 1) == Some((m as int, tail1)) by {
      ScanUnsignedVerb("m=", pm, dm, tail1, Two32);
    }
    assert ScanVerb(",t=", tail1, false, 0, Two32 - 1) == Some((t as int, tail2)) by {
      ScanUnsignedVerb(",t=", pt, dt, tail2, Two32);
    }
    assert ScanVerb(",p=", tail2, false, 0, Two8 - 1) == Some((q as int, rest)) by {
      ScanUnsignedVerb(",p=", pp, dp, rest, Two8);
    }
    ScanParamsOfSteps(field, tail1, tail2, m, t, q);
  }

  /** The parameter field String writes reads back. */
  lemma ScanParamsOfString(p: Params)
    ensures ScanParams(ParamsField(p)) == Some((p.memory, p.iterations, p.parallelism))
  {
    var tail2 := ",p=" + FormatInt(p.parallelism);
    var tail1 := ",t=" + (FormatInt(p.iterations) + tail2);
    ScanMemory(p, tail1);
    ScanIterations(p, tail1, tail2);
    ScanParallelism(p, tail2);
    ScanParamsOfSteps(ParamsField(p), tail1, tail2, p.memory, p.iterations, p.parallelism);
  }

  lemma ScanMemory(p: Params, tail1: string)
    requires tail1 == ",t=" + (FormatInt(p.iterations) + (",p=" + FormatInt(p.parallelism)))
    ensures ScanVerb("m=", ParamsField(p), false, 0, Two32 - 1) == Some((p.memory as int, tail1))
  {
    ScanVerbOfFormat("m=", p.memory, tail1, false, 0, Two32 - 1);
  }

  lemma ScanIterations(p: Params, tail1: string, tail2: string)
    requires tail2 == ",p=" + FormatInt(p.parallelism)
    requires tail1 == ",t=" + (FormatInt(p.iterations) + tail2)
    ensures ScanVerb(",t=", tail1, false, 0, Two32 - 1) == Some((p.iterations as int, tail2))
  {
    ScanVerbOfFormat(",t=", p.iterations, tail2, false, 0, Two32 - 1);
  }

  lemma ScanParallelism(p: Params, tail2: string)
    requires tail2 == ",p=" + FormatInt(p.parallelism)
    ensures ScanVerb(",p=", tail2, false, 0, Two8 - 1) == Some((p.parallelism as int, []))
  {
    assert tail2 == ",p=" + (FormatInt(p.parallelism) + []);
    ScanVerbOfFormat(",p=", p.parallelism, [], false, 0, Two8 - 1);
  }

  /** ScanParams from the outcome of its three verbs. */
  lemma ScanParamsOfSteps(field: string, tail1: string, tail2: string, m: uint32, t: uint32, q: uint8)
    requires ScanVerb("m=", field, false, 0, Two32 - 1) == Some((m as int, tail1))
    requires ScanVerb(",t=", tail1, false, 0, Two32 - 1) == Some((t as int, tail2))
    requires ScanVerb(",p=", tail2, false, 0, Two8 - 1).Some? && ScanVerb(",p=", tail2, false, 0, Two8 - 1).value.0 == q
    ensures ScanParams(field) == Some((m, t, q))
  {
  }

  /**
   * Round trip: decodeHash of String gives back the memory, iterations,
   * parallelism, salt and hash; the lengths are those of salt and hash.
   */
  lemma DecodeHashOfString(h: PasswordHash)
    ensures DecodeHash(String(h)) == Ok(Decoded(
      h.params.(saltLength := ToUint32(|h.salt|), keyLength := ToUint32(|h.hash|)), h.salt, h.hash))
  {
    var vals := Split(String(h), '$');
    assert vals == Fields(h);
    assert ScanVersion(vals[2]) == Some(Argon2Version) by { ScanVersionOfInt(Argon2Version); }
    assert ScanParams(vals[3]) == Some((h.params.memory, h.params.iterations, h.params.parallelism)) by {
      ScanParamsOfString(h.params);
    }
    assert Base64.Decode(vals[4]) == Some(h.salt) by { Base64.DecodeEncode(h.salt); }
    assert Base64.Decode(vals[5]) == Some(h.hash) by { Base64.DecodeEncode(h.hash); }
    DecodeHashOfFields(String(h), h.params.memory, h.params.iterations, h.params.parallelism, h.salt, h.hash);
  }

  /** decodeHash succeeds when each of the six fields reads as it should. */
  lemma DecodeHashOfFields(encoded: string, m: uint32, t: uint32, p: uint8, salt: seq<byte>, hash: seq<byte>)
    requires var vals := Split(encoded, '$');
      && |vals| == 6 && ScanVersion(vals[2]) == Some(Argon2Version)
      && ScanParams(vals[3]) == Some((m, t, p))
      && Base64.Decode(vals[4]) == Some(salt) && Base64.Decode(vals[5]) == Some(hash)
    ensures DecodeHash(encoded) == Ok(Decoded(Params(m, t, p, ToUint32(|salt|), ToUint32(|hash|)), salt, hash))
  {
  }

  /** A hash whose recorded lengths are those of its salt and key survives String and LoadPasswordHash unchanged. */
  lemma LoadPasswordHashOfString(h: PasswordHash)
    requires h.params.saltLength == |h.salt| && h.params.keyLength == |h.hash|
    ensures LoadPasswordHash(String(h)) == (h, None)
  {
    DecodeHashOfString(h);
  }

  /** decodeHash never looks at the text before the first `$` nor at the algorithm name. */
  lemma DecodeHashIgnoresLabel(lead: string, algo: string, rest: string)
    requires '$' !in lead && '$' !in algo
    ensures DecodeHash(lead + ['$'] + (algo + ['$'] + rest)) == DecodeHash([] + ['$'] + (AlgoName + ['$'] + rest))
  {
    SplitPrefix(lead, '$', algo + ['$'] + rest);
    SplitPrefix(algo, '$', rest);
    SplitPrefix([], '$', AlgoName + ['$'] + rest);
    SplitPrefix(AlgoName, '$', rest);
    DecodeHashOfSameTail(lead + ['$'] + (algo + ['$'] + rest), [] + ['$'] + (AlgoName + ['$'] + rest));
  }

  /** decodeHash looks only at the fields after the second. */
  lemma DecodeHashOfSameTail(x: string, y: string)
    requires |Split(x, '$')| == |Split(y, '$')| >= 2
    requires Split(x, '$')[2..] == Split(y, '$')[2..]
    ensures DecodeHash(x) == DecodeHash(y)
  {
    var vx, vy := Split(x, '$'), Split(y, '$');
    if |vx| == 6 {
      assert vx[2] == vy[2] && vx[3] == vy[3] && vx[4] == vy[4] && vx[5] == vy[5];
    }
  }

  /**
   * Any version other than 19 is refused as incompatible, whatever the
   * other fields hold.
   */
  lemma DecodeHashRejectsOtherVersion(v: int, lead: string, algo: string, params: string, salt: string, hash: string)
    requires MinInt <= v <= MaxInt && v != Argon2Version
    requires '$' !in lead && '$' !in algo && '$' !in params && '$' !in salt && '$' !in hash
    ensures DecodeHash(Join([lead, algo, "v=" + FormatInt(v), params, salt, hash], '$')) == Err(IncompatibleVersion)
  {
    var f := [lead, algo, "v=" + FormatInt(v), params, salt, hash];
    assert '$' !in FormatInt(v);
    assert '$' !in f[2];
    SplitJoin(f, '$');
    ScanVersionOfInt(v);
  }

  /** Comparing with the string form of another hash compares the hash bytes only. */
  lemma CompareHashOfString(h: PasswordHash, other: PasswordHash)
    ensures CompareHash(h, String(other)) == (h.hash == other.hash, None)
  {
    DecodeHashOfString(other);
  }
}
