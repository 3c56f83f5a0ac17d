/**
 * The origin or destination of a Directions request and its rendering as a
 * URL query value (`From<&Location> for String`).
 */
module DirectionsLocation {
  import opened Wrappers
  import opened PercentEncoding

  /**
   * An address, a coordinate pair or a place ID. A coordinate is held as the
   * text `{:.7}` renders its 32-bit float as; how that text is produced from
   * the float is not part of this model.
   */
  datatype Location =
    | Address(address: string)
    | LatLng(lat: string, lng: string)
    | PlaceId(placeId: string)

  /** The text that is percent-encoded for each kind of location. */
  function PlainText(location: Location): string
  {
    match location
    case Address(address) => address
    case LatLng(lat, lng) => lat + "," + lng
    case PlaceId(placeId) => "place_id:" + placeId
  }

  /** `String::from(&location)`. */
  function ToQueryValue(location: Location): (r: string)
    ensures forall i :: 0 <= i < |r| ==> IsEncodedChar(r[i])
    ensures Decode(r) == Some(Utf8(PlainText(location)))
  {
    DecodeEncode(Utf8(PlainText(location)));
    Encode(Utf8(PlainText(location)))
  }

  /** Two locations render to the same query value only if their texts are the same. */
  lemma ToQueryValueInjective(x: Location, y: Location)
    requires ToQueryValue(x) == ToQueryValue(y)
    ensures PlainText(x) == PlainText(y)
  {
    Utf8Injective(PlainText(x), PlainText(y));
  }

  /** One byte on its own encodes as `EncodeByte` says. */
  lemma EncodeOne(b: Byte)
    ensures Encode([b]) == EncodeByte(b)
  {
    assert [b][1..] == [];
  }

  /** The UTF-8 bytes of `place_id:`. */
  lemma PlaceIdPrefixBytes()
    ensures Utf8("place_id:") == [0x70, 0x6C, 0x61, 0x63, 0x65] + [0x5F] + [0x69, 0x64] + [0x3A]
  {
    Utf8OfAscii("place_id:");
  }

  /** The encodings of the pieces of `place_id:`. */
  lemma PlaceIdPrefixPieces()
    ensures Encode([0x70, 0x6C, 0x61, 0x63, 0x65]) == "place"
    ensures Encode([0x5F]) == "%5F"
    ensures Encode([0x69, 0x64]) == "id"
    ensures Encode([0x3A]) == "%3A"
  {
    EncodeAlphanumeric([0x70, 0x6C, 0x61, 0x63, 0x65]);
    EncodeAlphanumeric([0x69, 0x64]);
    EncodeOne(0x5F);
    EncodeOne(0x3A);
  }

  lemma EncodeFourParts(a: seq<Byte>, b: seq<Byte>, c: seq<Byte>, d: seq<Byte>)
    ensures Encode(a + b + c + d) == Encode(a) + Encode(b) + Encode(c) + Encode(d)
  {
    EncodeAppend(a + b + c, d);
    EncodeAppend(a + b, c);
    EncodeAppend(a, b);
  }

  /** The encoding of `place_id:`. */
  lemma PlaceIdPrefixEncoding()
    ensures Encode(Utf8("place_id:")) == "place%5Fid%3A"
  {
    PlaceIdPrefixBytes();
    PlaceIdPrefixPieces();
    EncodeFourParts([0x70, 0x6C, 0x61, 0x63, 0x65], [0x5F], [0x69, 0x64], [0x3A]);
    assert "place" + "%5F" + "id" + "%3A" == "place%5Fid%3A";
  }

  /** A place ID is prefixed with the encoding of `place_id:`. */
  lemma {:induction false} PlaceIdQueryValue(placeId: string)
    ensures ToQueryValue(PlaceId(placeId)) == "place%5Fid%3A" + Encode(Utf8(placeId))
  {
    Utf8Append("place_id:", placeId);
    EncodeAppend(Utf8("place_id:"), Utf8(placeId));
    PlaceIdPrefixEncoding();
  }

  /** The UTF-8 bytes and the encoding of `,`. */
  lemma CommaEncoding()
    ensures Utf8(",") == [0x2C]
    ensures Encode([0x2C]) == "%2C"
  {
    assert ","[1..] == [];
    EncodeOne(0x2C);
  }

  /** A coordinate pair is its two coordinates, encoded, around an encoded comma. */
  lemma {:induction false} LatLngQueryValue(lat: string, lng: string)
    ensures ToQueryValue(LatLng(lat, lng)) == Encode(Utf8(lat)) + "%2C" + Encode(Utf8(lng))
  {
    LatLngEncoding(lat, lng);
  }

  /** The encoding of the text `lat,lng`, piece by piece. */
  lemma LatLngEncoding(lat: string, lng: string)
    ensures Encode(Utf8(lat + "," + lng)) == Encode(Utf8(lat)) + "%2C" + Encode(Utf8(lng))
  {
    var bl, bn := Utf8(lat), Utf8(lng);
    assert Utf8(lat + "," + lng) == bl + ([0x2C] + bn) by {
      assert lat + "," + lng == lat + ("," + lng);
      Utf8Append(lat, "," + lng);
      Utf8Append(",", lng);
      CommaEncoding();
    }
    assert Encode([0x2C] + bn) == "%2C" + Encode(bn) by {
      CommaEncoding();
      EncodeAppend([0x2C], bn);
    }
    EncodeAppend(bl, [0x2C] + bn);
  }
}
