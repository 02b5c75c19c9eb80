/** The allowed cross-origin list: a comma-separated setting, each piece
    trimmed, empty pieces dropped. */
module Cors {
  import opened Text

  /** The setting's default value: the development server by name and by
      loopback address, separated by a comma. */
  const LOCALHOST_ORIGIN := "http://localhost:5173"
  const LOOPBACK_ORIGIN := "http://127.0.0.1:5173"
  const DEFAULT_ORIGINS := LOCALHOST_ORIGIN + "," + LOOPBACK_ORIGIN

  /** A text that `trim` leaves as it is and that is not empty. */
  predicate IsOrigin(o: string) {
    o != [] && !IsTrimmed(o[0]) && !IsTrimmed(o[|o| - 1])
  }

  /** Each piece trimmed (`map(String::trim)`). */
  function Trimmed(pieces: seq<string>): (r: seq<string>)
    ensures |r| == |pieces|
  {
    seq(|pieces|, i requires 0 <= i < |pieces| => Trim(pieces[i]))
  }

  /** The non-empty texts, in order (`filter(o -> !o.isEmpty())`). */
  function NonEmpty(ts: seq<string>): (r: seq<string>)
    ensures |r| <= |ts|
    ensures forall k :: 0 <= k < |r| ==> r[k] != [] && r[k] in ts
  {
    if ts == [] then []
    else
      var last := ts[|ts| - 1];
      NonEmpty(ts[..|ts| - 1]) + (if last == [] then [] else [last])
  }

  /** `parseOrigins`. */
  function ParseOrigins(origins: string): seq<string> {
    NonEmpty(Trimmed(JavaSplit(origins, ',')))
  }

  /** No allowed origin is empty or has whitespace around it. */
  lemma ParsedAreOrigins(origins: string)
    ensures forall k :: 0 <= k < |ParseOrigins(origins)| ==> IsOrigin(ParseOrigins(origins)[k])
  {
    var ts := Trimmed(JavaSplit(origins, ','));
    forall k | 0 <= k < |ParseOrigins(origins)|
      ensures IsOrigin(ParseOrigins(origins)[k])
    {
      var o := ParseOrigins(origins)[k];
      var i :| 0 <= i < |ts| && ts[i] == o;
    }
  }

  lemma {:induction false} NonEmptyAppend(a: seq<string>, b: seq<string>)
    ensures NonEmpty(a + b) == NonEmpty(a) + NonEmpty(b)
    decreases |b|
  {
    if b == [] {
      assert a + b == a;
    } else {
      var init := b[..|b| - 1];
      var last := b[|b| - 1];
      var tail := if last == [] then [] else [last];
      NonEmptyAppend(a, init);
      assert (a + b)[..|a + b| - 1] == a + init && (a + b)[|a + b| - 1] == last;
      assert NonEmpty(a + b) == NonEmpty(a + init) + tail;
      assert NonEmpty(b) == NonEmpty(init) + tail;
      ConcatAssoc(NonEmpty(a), NonEmpty(init), tail);
    }
  }

  lemma TrimmedAppend(a: seq<string>, b: seq<string>)
    ensures Trimmed(a + b) == Trimmed(a) + Trimmed(b)
  {
  }

  /** Pieces that are already origins are all kept, unchanged. */
  lemma {:induction false} KeptOrigins(os: seq<string>)
    requires forall k :: 0 <= k < |os| ==> IsOrigin(os[k])
    ensures NonEmpty(Trimmed(os)) == os
  {
    if os != [] {
      var init := os[..|os| - 1];
      var ts := Trimmed(os);
      KeptOrigins(init);
      TrimNoop(os[|os| - 1]);
      assert ts[..|os| - 1] == Trimmed(init);
      assert ts[|os| - 1] == os[|os| - 1] != [];
      assert NonEmpty(ts) == NonEmpty(Trimmed(init)) + [os[|os| - 1]];
      LastSplit(os);
    }
  }

  /** Empty pieces add nothing. */
  lemma {:induction false} KeptEmpties(pieces: seq<string>)
    requires forall k :: 0 <= k < |pieces| ==> pieces[k] == []
    ensures NonEmpty(Trimmed(pieces)) == []
  {
    if pieces != [] {
      var init := pieces[..|pieces| - 1];
      var ts := Trimmed(pieces);
      KeptEmpties(init);
      assert ts[..|pieces| - 1] == Trimmed(init);
      assert ts[|pieces| - 1] == Trim([]) == [];
    }
  }

  /** Java's dropping of trailing empty pieces does not show: the result
      is that of a full split. */
  lemma ParseOriginsOfFullSplit(origins: string)
    ensures ParseOrigins(origins) == NonEmpty(Trimmed(SplitAll(origins, ',')))
  {
    var all := SplitAll(origins, ',');
    var js := JavaSplit(origins, ',');
    JavaSplitPieces(origins, ',');
    assert all == js + all[|js|..];
    TrimmedAppend(js, all[|js|..]);
    NonEmptyAppend(Trimmed(js), Trimmed(all[|js|..]));
    KeptEmpties(all[|js|..]);
  }

  /** Splitting around one separator splits each side. */
  lemma {:induction false} SplitAllAround(a: string, sep: char, b: string)
    ensures SplitAll(a + [sep] + b, sep) == SplitAll(a, sep) + SplitAll(b, sep)
    decreases |a|
  {
    var s := a + [sep] + b;
    var i := IndexOf(a, sep);
    if i < 0 {
      IndexOfAfter(a, sep, b);
      assert s[..|a|] == a && s[|a| + 1..] == b;
      assert SplitAll(s, sep) == [a] + SplitAll(b, sep);
      assert SplitAll(a, sep) == [a];
    } else {
      var rest := a[i + 1..] + [sep] + b;
      IndexOfAfter(a[..i], sep, rest);
      assert a == a[..i] + [sep] + a[i + 1..];
      assert s == a[..i] + [sep] + rest;
      SplitAllAround(a[i + 1..], sep, b);
      assert s[..i] == a[..i];
      assert s[i + 1..] == rest;
      assert SplitAll(s, sep) == [a[..i]] + SplitAll(rest, sep);
      assert SplitAll(a, sep) == [a[..i]] + SplitAll(a[i + 1..], sep);
      ConcatAssoc([a[..i]], SplitAll(a[i + 1..], sep), SplitAll(b, sep));
    }
  }

  lemma LastSplit(s: seq<string>)
    requires s != []
    ensures s == s[..|s| - 1] + [s[|s| - 1]]
  {
  }

  lemma ConcatAssoc(x: seq<string>, y: seq<string>, z: seq<string>)
    ensures x + (y + z) == (x + y) + z
  {
  }

  /** Origins listed in two parts of the setting come out as the first
      part's followed by the second's: order is kept and no piece depends
      on another. */
  lemma ParseOriginsConcat(a: string, b: string)
    ensures ParseOrigins(a + "," + b) == ParseOrigins(a) + ParseOrigins(b)
  {
    ParseOriginsOfFullSplit(a + "," + b);
    ParseOriginsOfFullSplit(a);
    ParseOriginsOfFullSplit(b);
    SplitAllAround(a, ',', b);
    TrimmedAppend(SplitAll(a, ','), SplitAll(b, ','));
    NonEmptyAppend(Trimmed(SplitAll(a, ',')), Trimmed(SplitAll(b, ',')));
  }

  /** Origins without commas, joined by commas, are read back as they
      were. */
  lemma OriginsReadBack(os: seq<string>)
    requires |os| >= 1
    requires forall k :: 0 <= k < |os| ==> IsOrigin(os[k]) && ',' !in os[k]
    ensures ParseOrigins(Join(os, ',')) == os
  {
    ParseOriginsOfFullSplit(Join(os, ','));
    JoinSplitAll(os, ',');
    KeptOrigins(os);
  }

  /** The default setting allows the two development-server origins. */
  lemma DefaultOrigins()
    ensures ParseOrigins(DEFAULT_ORIGINS) == [LOCALHOST_ORIGIN, LOOPBACK_ORIGIN]
  {
    DefaultPartsAreOrigins();
    OneOrigin(LOCALHOST_ORIGIN);
    OneOrigin(LOOPBACK_ORIGIN);
    ParseOriginsConcat(LOCALHOST_ORIGIN, LOOPBACK_ORIGIN);
  }

  lemma DefaultPartsAreOrigins()
    ensures IsOrigin(LOCALHOST_ORIGIN) && ',' !in LOCALHOST_ORIGIN
    ensures IsOrigin(LOOPBACK_ORIGIN) && ',' !in LOOPBACK_ORIGIN
  {
  }

  /** A single origin without commas is read as itself. */
  lemma OneOrigin(o: string)
    requires IsOrigin(o) && ',' !in o
    ensures ParseOrigins(o) == [o]
  {
    KeptOrigins([o]);
  }
}
