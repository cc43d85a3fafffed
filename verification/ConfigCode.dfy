/** The loops of the configuration service. */
module ConfigCode {
  import opened Basics
  import opened Json
  import opened JsonLaws
  import opened JsonCode
  import opened Config
  import opened ConfigLaws

  /** Decodes into `out` as far as the digits are good. */
  method DecodeHex(hex: string, out: array<Byte>) returns (ok: bool)
    modifies out
    ensures (ok, out[..]) == HexToBytes(hex, old(out[..]))
  {
    hide HexByte;
    if |hex| != 2 * out.Length {
      return false;
    }
    ghost var before := out[..];
    for i := 0 to out.Length
      invariant GoodBytes(hex, 0) == GoodBytes(hex, i)
      invariant forall j :: 0 <= j < i ==> HexByte(hex[2 * j], hex[2 * j + 1]) == Some(out[j])
      invariant forall j :: i <= j < out.Length ==> out[j] == before[j]
    {
      match HexByte(hex[2 * i], hex[2 * i + 1]) {
        case None =>
          assert out[..] == HexToBytes(hex, before).1;
          return false;
        case Some(b) => out[i] := b;
      }
    }
    assert out[..] == HexToBytes(hex, before).1;
    return true;
  }

  method EncodeHex(bytes: seq<Byte>) returns (hex: string)
    ensures hex == BytesToHex(bytes)
  {
    hide HexDigit;
    hex := "";
    for i := 0 to |bytes|
      invariant hex + BytesToHex(bytes[i..]) == BytesToHex(bytes)
    {
      assert bytes[i..][1..] == bytes[i + 1..];
      hex := hex + [HexDigit(bytes[i] / 16)];
      hex := hex + [HexDigit(bytes[i] % 16)];
    }
    assert bytes[|bytes|..] == [];
  }

  /** The profile list, read item by item. */
  method LoadProfiles(m: Machine, items: seq<JsonValue>) returns (profiles: seq<UserProfile>)
    ensures profiles == ReadProfiles(m, items)
  {
    hide ReadProfile;
    profiles := [];
    for i := 0 to |items|
      invariant profiles + ReadProfiles(m, items[i..]) == ReadProfiles(m, items)
    {
      assert items[i..][1..] == items[i + 1..];
      if !items[i].Object? {
        continue;
      }
      profiles := profiles + [ReadProfile(m, items[i])];
    }
    assert items[|items|..] == [];
  }
}
