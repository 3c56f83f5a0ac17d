/**
 * The Elevation API request record and the rendering of its `locations` and
 * `path` values (`From<&Locations> for String`).
 */
module ElevationRequest {
  import opened Wrappers

  /** Rust's `u8`: `samples` can only hold 0 to 255. */
  type U8 = n: int | 0 <= n < 256

  /**
   * One or more coordinates, or an encoded polyline. The coordinate type is a
   * parameter: how a coordinate renders as text is not part of this model.
   */
  datatype Locations<LatLng> =
    | LatLngs(latlngs: seq<LatLng>)
    | Polyline(polyline: string)

  /** The state of an Elevation request; nothing in this part of the library changes it. */
  datatype Request<LatLng> = Request(
    key: string,
    locations: Option<Locations<LatLng>>,
    path: Option<Locations<LatLng>>,
    samples: Option<U8>,
    validated: bool,
    query: Option<string>)

  /** The renderings of the coordinates, in list order. */
  function Renderings<LatLng>(latlngs: seq<LatLng>, render: LatLng -> string): (rs: seq<string>)
    ensures |rs| == |latlngs|
    ensures forall i :: 0 <= i < |latlngs| ==> rs[i] == render(latlngs[i])
  {
    if latlngs == [] then [] else [render(latlngs[0])] + Renderings(latlngs[1..], render)
  }

  /** `.map(|r| r + "|").collect::<String>()`: every rendering followed by a `|`. */
  function PipeTerminated(rs: seq<string>): (r: string)
    ensures rs == [] ==> r == []
    ensures rs != [] ==> r == Join(rs) + "|"
  {
    if rs == [] then [] else rs[0] + "|" + PipeTerminated(rs[1..])
  }

  /** `trim_end_matches('|')`: every trailing `|`, not just the last one, is removed. */
  function TrimEndPipes(s: string): (r: string)
    ensures r <= s
    ensures r == [] || r[|r| - 1] != '|'
    ensures forall i :: |r| <= i < |s| ==> s[i] == '|'
    decreases |s|
  {
    if s != [] && s[|s| - 1] == '|' then TrimEndPipes(s[..|s| - 1]) else s
  }

  /** `String::from(&locations)`. */
  function ToQueryValue<LatLng>(locations: Locations<LatLng>, render: LatLng -> string): (r: string)
    ensures locations.LatLngs? ==> r == [] || r[|r| - 1] != '|'
    ensures locations.Polyline? ==> |r| >= 4 && r[..4] == "enc:" && r[4..] == locations.polyline
  {
    match locations
    case LatLngs(latlngs) => TrimEndPipes(PipeTerminated(Renderings(latlngs, render)))
    case Polyline(polyline) => "enc:" + polyline
  }

  // ---------------------------------------------------------------------------
  // The intended shape: renderings separated by single `|` characters

  /** The renderings joined by single `|` separators. */
  function Join(rs: seq<string>): string
  {
    if rs == [] then []
    else if |rs| == 1 then rs[0]
    else rs[0] + "|" + Join(rs[1..])
  }

  /** Splits on every `|`; a text without `|` is a single piece. */
  function Split(s: string): (parts: seq<string>)
    ensures |parts| >= 1
  {
    if s == [] then [[]]
    else
      var rest := Split(s[1..]);
      if s[0] == '|' then [[]] + rest else [[s[0]] + rest[0]] + rest[1..]
  }

  /** The number of `|` characters in a text. */
  function CountPipes(s: string): nat
  {
    if s == [] then 0 else (if s[0] == '|' then 1 else 0) + CountPipes(s[1..])
  }

  /** A rendering that cannot be confused with the separator. */
  predicate WellFormedRendering(r: string) {
    r != [] && '|' !in r
  }

  predicate AllWellFormed(rs: seq<string>) {
    forall i :: 0 <= i < |rs| ==> WellFormedRendering(rs[i])
  }

  /** A well-formed list ends in a character other than `|` once joined. */
  lemma {:induction false} JoinEnd(rs: seq<string>)
    requires rs != [] && AllWellFormed(rs)
    ensures Join(rs) != [] && Join(rs)[|Join(rs)| - 1] != '|'
  {
    if |rs| == 1 {
      assert rs[0][|rs[0]| - 1] in rs[0];
    } else {
      assert AllWellFormed(rs[1..]) by {
        forall i | 0 <= i < |rs| - 1 ensures WellFormedRendering(rs[1..][i]) {
          assert rs[1..][i] == rs[i + 1];
        }
      }
      JoinEnd(rs[1..]);
    }
  }

  /**
   * With well-formed renderings, the value is exactly the renderings joined by
   * single `|` separators.
   */
  lemma LatLngsAreJoined<LatLng>(latlngs: seq<LatLng>, render: LatLng -> string)
    requires AllWellFormed(Renderings(latlngs, render))
    ensures ToQueryValue(LatLngs(latlngs), render) == Join(Renderings(latlngs, render))
  {
    var rs := Renderings(latlngs, render);
    if rs != [] {
      JoinEnd(rs);
      var s := Join(rs) + "|";
      assert s[..|s| - 1] == Join(rs);
    }
  }

  /** An empty list renders as the empty text. */
  lemma EmptyLatLngs<LatLng>(render: LatLng -> string)
    ensures ToQueryValue(LatLngs([]), render) == ""
  {
  }

  /** A single coordinate renders as its own rendering, less any trailing `|`. */
  lemma {:induction false} SingleLatLng<LatLng>(latlng: LatLng, render: LatLng -> string)
    ensures ToQueryValue(LatLngs([latlng]), render) == TrimEndPipes(render(latlng))
    ensures render(latlng) == [] || render(latlng)[|render(latlng)| - 1] != '|' ==>
              ToQueryValue(LatLngs([latlng]), render) == render(latlng)
  {
    var r := render(latlng);
    assert Renderings([latlng], render) == [r];
    assert PipeTerminated([r]) == r + "|" by {
      assert [r][1..] == [];
    }
    assert (r + "|")[..|r|] == r;
  }

  lemma {:induction false} CountPipesAppend(a: string, b: string)
    ensures CountPipes(a + b) == CountPipes(a) + CountPipes(b)
  {
    if a != [] {
      assert (a + b)[1..] == a[1..] + b;
      CountPipesAppend(a[1..], b);
    } else {
      assert a + b == b;
    }
  }

  lemma {:induction false} NoPipes(s: string)
    requires '|' !in s
    ensures CountPipes(s) == 0
    ensures Split(s) == [s]
  {
    if s != [] {
      NoPipes(s[1..]);
      assert [s[0]] + s[1..] == s;
    }
  }

  /** Splitting a piece followed by `|` gives that piece, then the split of the rest. */
  lemma {:induction false} SplitAfterPiece(piece: string, rest: string)
    requires '|' !in piece
    ensures Split(piece + "|" + rest) == [piece] + Split(rest)
  {
    if piece == [] {
      assert piece + "|" + rest == "|" + rest;
      assert ("|" + rest)[1..] == rest;
    } else {
      var s := piece + "|" + rest;
      assert s[1..] == piece[1..] + "|" + rest;
      SplitAfterPiece(piece[1..], rest);
      assert [piece[0]] + piece[1..] == piece;
    }
  }

  /** The separators number one fewer than the renderings, and splitting gives the renderings back. */
  lemma {:induction false} JoinSplit(rs: seq<string>)
    requires rs != [] && AllWellFormed(rs)
    ensures CountPipes(Join(rs)) == |rs| - 1
    ensures Split(Join(rs)) == rs
  {
    if |rs| == 1 {
      NoPipes(rs[0]);
    } else {
      assert AllWellFormed(rs[1..]) by {
        forall i | 0 <= i < |rs| - 1 ensures WellFormedRendering(rs[1..][i]) {
          assert rs[1..][i] == rs[i + 1];
        }
      }
      JoinSplit(rs[1..]);
      NoPipes(rs[0]);
      CountPipesAppend(rs[0] + "|", Join(rs[1..]));
      CountPipesAppend(rs[0], "|");
      SplitAfterPiece(rs[0], Join(rs[1..]));
      assert [rs[0]] + rs[1..] == rs;
    }
  }

  /**
   * For n >= 1 well-formed coordinates the value holds exactly n - 1 `|`
   * separators, and splitting it on `|` gives back the renderings in order.
   */
  lemma LatLngsSplitBack<LatLng>(latlngs: seq<LatLng>, render: LatLng -> string)
    requires latlngs != []
    requires AllWellFormed(Renderings(latlngs, render))
    ensures CountPipes(ToQueryValue(LatLngs(latlngs), render)) == |latlngs| - 1
    ensures Split(ToQueryValue(LatLngs(latlngs), render)) == Renderings(latlngs, render)
  {
    LatLngsAreJoined(latlngs, render);
    JoinSplit(Renderings(latlngs, render));
  }
}
