/**
 * The URL builder the adapters call as
 * `request.NewAddress(proto, host).SetEndpoint(path, k1, v1, ...).URL().String()`.
 * That builder lives in a library outside this repository, and its code is
 * not part of this model. The adapters' golden URLs pin down only that the
 * keys come in sorted order, that a space becomes `+` and that letters and
 * digits pass through. Everything else here is an assumption: that the query
 * is encoded as Go's `url.Values.Encode` does, with every key and value
 * escaped by `url.QueryEscape` (upper-case `%XX`, and `- _ . ~` left alone).
 */
module Query {
  import opened Wrappers
  import Utf8

  type Param = (string, string)

  // ---------------------------------------------------------------------------
  // Key order
  // ---------------------------------------------------------------------------

  /**
   * Lexicographic order on strings, as Go's `<` on strings (byte-wise on the
   * UTF-8 encoding, which orders scalar values the same way).
   */
  predicate Less(a: string, b: string)
    decreases |a|
  {
    if b == [] then false
    else if a == [] then true
    else if a[0] != b[0] then a[0] < b[0]
    else Less(a[1..], b[1..])
  }

  lemma {:induction false} LessAsymmetric(a: string, b: string)
    ensures Less(a, b) ==> !Less(b, a)
    decreases |a|
  {
    if a != [] && b != [] && a[0] == b[0] {
      LessAsymmetric(a[1..], b[1..]);
    }
  }

  lemma {:induction false} LessTransitive(a: string, b: string, c: string)
    requires Less(a, b) && Less(b, c)
    ensures Less(a, c)
    decreases |a|
  {
    if a != [] && a[0] == b[0] && b[0] == c[0] {
      LessTransitive(a[1..], b[1..], c[1..]);
    }
  }

  lemma {:induction false} LessTotal(a: string, b: string)
    ensures a == b || Less(a, b) || Less(b, a)
    decreases |a|
  {
    if a != [] && b != [] && a[0] == b[0] {
      LessTotal(a[1..], b[1..]);
      if a[1..] == b[1..] {
        assert a == [a[0]] + a[1..] && b == [b[0]] + b[1..];
      }
    }
  }

  /** Keys never decrease along the list. */
  ghost predicate Sorted(ps: seq<Param>) {
    forall i, j :: 0 <= i < j < |ps| ==> !Less(ps[j].0, ps[i].0)
  }

  /** Keys strictly increase along the list, so no key is repeated. */
  ghost predicate StrictlySorted(ps: seq<Param>) {
    forall i, j :: 0 <= i < j < |ps| ==> Less(ps[i].0, ps[j].0)
  }

  /** Inserts `p` after every parameter whose key is not above its own. */
  function Insert(p: Param, ps: seq<Param>): (r: seq<Param>)
    ensures multiset(r) == multiset(ps) + multiset{p}
  {
    if ps == [] then [p]
    else if !Less(p.0, ps[0].0) then
      assert ps == [ps[0]] + ps[1..];
      [ps[0]] + Insert(p, ps[1..])
    else [p] + ps
  }

  /** A sorted list stays sorted under a head no key of it is below. */
  lemma SortedCons(p: Param, ps: seq<Param>)
    requires Sorted(ps)
    requires forall j :: 0 <= j < |ps| ==> !Less(ps[j].0, p.0)
    ensures Sorted([p] + ps)
  {
    var r := [p] + ps;
    forall i, j | 0 <= i < j < |r| ensures !Less(r[j].0, r[i].0) {
      assert r[j] == ps[j - 1];
      if i > 0 { assert r[i] == ps[i - 1]; }
    }
  }

  /** Inserting into a sorted list keeps it sorted. */
  lemma {:induction false} InsertSorted(p: Param, ps: seq<Param>)
    requires Sorted(ps)
    ensures Sorted(Insert(p, ps))
  {
    if ps == [] {
    } else if !Less(p.0, ps[0].0) {
      var tail := Insert(p, ps[1..]);
      InsertSorted(p, ps[1..]);
      assert ps == [ps[0]] + ps[1..];
      forall j | 0 <= j < |tail| ensures !Less(tail[j].0, ps[0].0) {
        assert tail[j] in multiset(tail);
        if tail[j] == p {
          LessTotal(ps[0].0, p.0);
        } else {
          assert tail[j] in multiset(ps[1..]);
          var k :| 0 <= k < |ps[1..]| && ps[1..][k] == tail[j];
          assert ps[k + 1] == tail[j];
        }
      }
      SortedCons(ps[0], tail);
    } else {
      forall j | 0 <= j < |ps| ensures !Less(ps[j].0, p.0) {
        if j > 0 && Less(ps[j].0, p.0) {
          LessTransitive(ps[j].0, p.0, ps[0].0);
        }
        LessAsymmetric(p.0, ps[0].0);
      }
      SortedCons(p, ps);
    }
  }

  /** The keys of `url.Values` in sorted order (insertion sort, stable). */
  function SortByKey(ps: seq<Param>): (r: seq<Param>)
    ensures multiset(r) == multiset(ps)
    ensures Sorted(r)
  {
    if ps == [] then []
    else
      var init := ps[..|ps| - 1];
      assert ps == init + [ps[|ps| - 1]];
      InsertSorted(ps[|ps| - 1], SortByKey(init));
      Insert(ps[|ps| - 1], SortByKey(init))
  }

  lemma HeadsAgree(a: seq<Param>, b: seq<Param>)
    requires Sorted(a) && StrictlySorted(b)
    requires multiset(a) == multiset(b) && a != []
    ensures b != [] && a[0] == b[0]
  {
    assert a[0] in multiset(b);
    var j :| 0 <= j < |b| && b[j] == a[0];
    assert b[0] in multiset(a);
    var i :| 0 <= i < |a| && a[i] == b[0];
    if j > 0 {
      if i == 0 {
        LessAsymmetric(b[0].0, b[j].0);
      }
      assert false;
    }
  }

  lemma TailsPermute<T>(a: seq<T>, b: seq<T>)
    requires multiset(a) == multiset(b) && a != [] && b != [] && a[0] == b[0]
    ensures multiset(a[1..]) == multiset(b[1..])
  {
    assert a == [a[0]] + a[1..] && b == [b[0]] + b[1..];
    assert multiset(a) == multiset{a[0]} + multiset(a[1..]);
    assert multiset(b) == multiset{b[0]} + multiset(b[1..]);
    assert multiset(a[1..]) == multiset(a) - multiset{a[0]};
    assert multiset(b[1..]) == multiset(b) - multiset{b[0]};
  }

  /**
   * A list sorted by key that is a permutation of a list whose keys strictly
   * increase IS that list: with distinct keys the sorted arrangement is unique.
   */
  lemma {:induction false} SortedUnique(a: seq<Param>, b: seq<Param>)
    requires Sorted(a) && StrictlySorted(b)
    requires multiset(a) == multiset(b)
    ensures a == b
  {
    if a == [] {
      assert |multiset(b)| == 0;
    } else {
      HeadsAgree(a, b);
      TailsPermute(a, b);
      SortedUnique(a[1..], b[1..]);
      assert a == [a[0]] + a[1..] && b == [b[0]] + b[1..];
    }
  }

  /**
   * Sorting does not depend on the order the parameters were given in: every
   * arrangement of a parameter set with distinct keys sorts to the same list.
   */
  lemma SortCanonical(ps: seq<Param>, canonical: seq<Param>)
    requires StrictlySorted(canonical)
    requires multiset(ps) == multiset(canonical)
    ensures SortByKey(ps) == canonical
  {
    SortedUnique(SortByKey(ps), canonical);
  }

  // ---------------------------------------------------------------------------
  // Escaping
  // ---------------------------------------------------------------------------

  /** Bytes `url.QueryEscape` leaves alone: letters, digits and `- _ . ~`. */
  predicate Unreserved(b: Utf8.byte) {
    || ('a' as int <= b as int <= 'z' as int)
    || ('A' as int <= b as int <= 'Z' as int)
    || ('0' as int <= b as int <= '9' as int)
    || b as int == '-' as int || b as int == '_' as int
    || b as int == '.' as int || b as int == '~' as int
  }

  /** No character that separates parts of a URL query. */
  predicate Inert(c: char) {
    c != '&' && c != '=' && c != ' ' && c != '?' && c != '#'
  }

  function HexDigit(x: int): (c: char)
    requires 0 <= x < 16
  {
    if x < 10 then ('0' as int + x) as char else ('A' as int + x - 10) as char
  }

  predicate IsHex(c: char) {
    '0' <= c <= '9' || 'A' <= c <= 'F' || 'a' <= c <= 'f'
  }

  function HexValue(c: char): (x: int)
    requires IsHex(c)
    ensures 0 <= x < 16
  {
    if '0' <= c <= '9' then c as int - '0' as int
    else if 'A' <= c <= 'F' then c as int - 'A' as int + 10
    else c as int - 'a' as int + 10
  }

  /** One byte as `url.QueryEscape` writes it: itself, `+` for a space, or `%XX`. */
  function EscapeByte(b: Utf8.byte): (r: string)
    ensures forall i :: 0 <= i < |r| ==> Inert(r[i]) && r[i] as int < 0x80
  {
    if Unreserved(b) then [b as int as char]
    else if b == 0x20 then "+"
    else ['%', HexDigit(b as int / 16), HexDigit(b as int % 16)]
  }

  function EscapeBytes(bs: seq<Utf8.byte>): (r: string)
    ensures forall i :: 0 <= i < |r| ==> Inert(r[i]) && r[i] as int < 0x80
  {
    if bs == [] then "" else EscapeByte(bs[0]) + EscapeBytes(bs[1..])
  }

  /** `url.QueryEscape(s)`. */
  function Escape(s: string): string {
    EscapeBytes(Utf8.Encode(s))
  }

  /**
   * `url.QueryUnescape` at the byte level: the reading of a query component
   * that a server applies, used here as the inverse that shows no two values
   * escape alike.
   */
  function UnescapeBytes(s: string): Option<seq<Utf8.byte>>
  {
    if s == [] then Some([])
    else
      var head: Option<(seq<Utf8.byte>, nat)> :=
        if s[0] == '+' then Some(([0x20 as Utf8.byte], 1))
        else if s[0] == '%' then
          if |s| >= 3 && IsHex(s[1]) && IsHex(s[2])
          then Some(([(HexValue(s[1]) * 16 + HexValue(s[2])) as Utf8.byte], 3))
          else None
        else Some((Utf8.EncodeChar(s[0]), 1));
      match head
      case None => None
      case Some((bs, used)) =>
        match UnescapeBytes(s[used..])
        case None => None
        case Some(rest) => Some(bs + rest)
  }

  lemma {:induction false} EscapeBytesAppend(a: seq<Utf8.byte>, b: seq<Utf8.byte>)
    ensures EscapeBytes(a + b) == EscapeBytes(a) + EscapeBytes(b)
  {
    if a == [] {
      assert a + b == b;
    } else {
      assert (a + b)[1..] == a[1..] + b;
      EscapeBytesAppend(a[1..], b);
    }
  }

  lemma HexRoundTrip(x: int)
    requires 0 <= x < 16
    ensures IsHex(HexDigit(x)) && HexValue(HexDigit(x)) == x
  {
  }

  /** Unescaping the escape of one byte followed by more text gives that byte first. */
  lemma UnescapeEscapeByte(b: Utf8.byte, rest: string)
    ensures UnescapeBytes(EscapeByte(b) + rest) ==
      match UnescapeBytes(rest)
      case None => None
      case Some(tail) => Some([b] + tail)
  {
    var s := EscapeByte(b) + rest;
    assert s[|EscapeByte(b)|..] == rest;
    if Unreserved(b) {
      assert s[0] == b as int as char;
      assert Utf8.EncodeChar(s[0]) == [b];
    } else if b == 0x20 {
      assert s[0] == '+';
    } else {
      HexRoundTrip(b as int / 16);
      HexRoundTrip(b as int % 16);
      assert s[0] == '%' && s[1] == HexDigit(b as int / 16) && s[2] == HexDigit(b as int % 16);
    }
  }

  /** Unescaping undoes escaping, so escaping loses nothing. */
  lemma {:induction false} UnescapeEscape(bs: seq<Utf8.byte>)
    ensures UnescapeBytes(EscapeBytes(bs)) == Some(bs)
  {
    if bs != [] {
      UnescapeEscape(bs[1..]);
      UnescapeEscapeByte(bs[0], EscapeBytes(bs[1..]));
      assert [bs[0]] + bs[1..] == bs;
    }
  }

  /** Two values with the same escaped form are the same value. */
  lemma EscapeInjective(s: string, t: string)
    requires Escape(s) == Escape(t)
    ensures s == t
  {
    UnescapeEscape(Utf8.Encode(s));
    UnescapeEscape(Utf8.Encode(t));
    Utf8.EncodeInjective(s, t);
  }

  /** Escaping distributes over concatenation. */
  lemma EscapeAppend(a: string, b: string)
    ensures Escape(a + b) == Escape(a) + Escape(b)
  {
    Utf8.EncodeAppend(a, b);
    EscapeBytesAppend(Utf8.Encode(a), Utf8.Encode(b));
  }

  /** A space is written as `+`. */
  lemma EscapeSpace()
    ensures Escape(" ") == "+"
  {
    assert Utf8.Encode(" ") == [0x20];
    assert EscapeBytes([0x20]) == EscapeByte(0x20) + EscapeBytes([]);
  }

  /** Text made only of ASCII letters, digits and `- _ . ~`. */
  predicate AllUnreserved(s: string) {
    forall i :: 0 <= i < |s| ==> s[i] as int < 0x80 && Unreserved(s[i] as int as Utf8.byte)
  }

  /** Text made only of letters, digits and `- _ . ~` is left as it is. */
  lemma {:induction false} EscapeUnreserved(s: string)
    requires AllUnreserved(s)
    ensures Escape(s) == s
  {
    if s != [] {
      assert s == [s[0]] + s[1..];
      EscapeAppend([s[0]], s[1..]);
      EscapeUnreserved(s[1..]);
      assert Utf8.Encode([s[0]]) == [s[0] as int as Utf8.byte];
      assert EscapeBytes([s[0] as int as Utf8.byte]) == EscapeByte(s[0] as int as Utf8.byte) + EscapeBytes([]);
    }
  }

  /** Every text of a list of plain texts is left as it is. */
  lemma EscapeAllUnreserved(ss: seq<string>)
    requires forall i :: 0 <= i < |ss| ==> AllUnreserved(ss[i])
    ensures forall i :: 0 <= i < |ss| ==> Escape(ss[i]) == ss[i]
  {
    forall i | 0 <= i < |ss| ensures Escape(ss[i]) == ss[i] {
      EscapeUnreserved(ss[i]);
    }
  }

  /** Two plain words with a space between them escape to the words joined by `+`. */
  lemma EscapeWords(s: string, a: string, b: string)
    requires s == a + " " + b
    requires AllUnreserved(a) && AllUnreserved(b)
    ensures Escape(s) == a + "+" + b
  {
    EscapeAppend(a, " ");
    EscapeAppend(a + " ", b);
    EscapeSpace();
    EscapeUnreserved(a);
    EscapeUnreserved(b);
  }

  // ---------------------------------------------------------------------------
  // Query and URL
  // ---------------------------------------------------------------------------

  function Pair(p: Param): string {
    Escape(p.0) + "=" + Escape(p.1)
  }

  /** The `key=value` pairs of an already sorted list, joined by `&`. */
  function Join(ps: seq<Param>): (r: string)
    ensures r == "" <==> ps == []
  {
    if ps == [] then ""
    else if |ps| == 1 then Pair(ps[0])
    else Pair(ps[0]) + "&" + Join(ps[1..])
  }

  /** `url.Values.Encode()`: the pairs in sorted key order. */
  function Encode(ps: seq<Param>): (r: string)
    ensures r == "" <==> ps == []
  {
    Join(SortByKey(ps))
  }

  /** A query of one parameter is that parameter's pair. */
  lemma EncodeSingle(p: Param)
    ensures Encode([p]) == Pair(p)
  {
    assert SortByKey([p]) == [p];
  }

  /**
   * Whatever order the parameters come in, the query lists them in key order,
   * provided their keys are distinct.
   */
  lemma EncodeCanonical(ps: seq<Param>, canonical: seq<Param>)
    requires StrictlySorted(canonical)
    requires multiset(ps) == multiset(canonical)
    ensures Encode(ps) == Join(canonical)
  {
    SortCanonical(ps, canonical);
  }

  /** A URL with one parameter whose key needs no escaping. */
  lemma UrlSingle(proto: string, host: string, path: string, k: string, v: string)
    requires Escape(k) == k
    ensures Url(proto, host, path, [(k, v)]) == proto + "://" + host + path + "?" + (k + "=" + Escape(v))
  {
    EncodeSingle((k, v));
  }

  /** A URL whose parameters, in whatever order, have distinct keys. */
  lemma UrlCanonical(proto: string, host: string, path: string, ps: seq<Param>, canonical: seq<Param>)
    requires StrictlySorted(canonical) && canonical != []
    requires multiset(ps) == multiset(canonical)
    ensures Url(proto, host, path, ps) == proto + "://" + host + path + "?" + Join(canonical)
  {
    EncodeCanonical(ps, canonical);
    assert ps != [] by {
      assert canonical[0] in multiset(ps);
    }
  }

  lemma JoinTwo(k1: string, v1: string, k2: string, v2: string)
    requires Escape(k1) == k1 && Escape(k2) == k2
    ensures Join([(k1, v1), (k2, v2)]) == k1 + "=" + Escape(v1) + "&" + (k2 + "=" + Escape(v2))
  {
    assert [(k1, v1), (k2, v2)][1..] == [(k2, v2)];
  }

  lemma JoinThree(k1: string, v1: string, k2: string, v2: string, k3: string, v3: string)
    requires Escape(k1) == k1 && Escape(k2) == k2 && Escape(k3) == k3
    ensures Join([(k1, v1), (k2, v2), (k3, v3)]) ==
      k1 + "=" + Escape(v1) + "&" + (k2 + "=" + Escape(v2) + "&" + (k3 + "=" + Escape(v3)))
  {
    assert [(k1, v1), (k2, v2), (k3, v3)][1..] == [(k2, v2), (k3, v3)];
    JoinTwo(k2, v2, k3, v3);
  }

  lemma ThreeStrictlySorted(k1: string, v1: string, k2: string, v2: string, k3: string, v3: string)
    requires Less(k1, k2) && Less(k2, k3)
    ensures StrictlySorted([(k1, v1), (k2, v2), (k3, v3)])
  {
    LessTransitive(k1, k2, k3);
  }

  /** A URL with three parameters of distinct, unescaped keys, given in any order. */
  lemma UrlThree(proto: string, host: string, path: string, ps: seq<Param>,
                 k1: string, v1: string, k2: string, v2: string, k3: string, v3: string)
    requires Less(k1, k2) && Less(k2, k3)
    requires Escape(k1) == k1 && Escape(k2) == k2 && Escape(k3) == k3
    requires multiset(ps) == multiset([(k1, v1), (k2, v2), (k3, v3)])
    ensures Url(proto, host, path, ps) == proto + "://" + host + path + "?"
      + (k1 + "=" + Escape(v1) + "&" + (k2 + "=" + Escape(v2) + "&" + (k3 + "=" + Escape(v3))))
  {
    ThreeStrictlySorted(k1, v1, k2, v2, k3, v3);
    UrlCanonical(proto, host, path, ps, [(k1, v1), (k2, v2), (k3, v3)]);
    JoinThree(k1, v1, k2, v2, k3, v3);
  }

  /** A URL with two parameters of distinct, unescaped keys, given in either order. */
  lemma UrlTwo(proto: string, host: string, path: string, ps: seq<Param>,
               k1: string, v1: string, k2: string, v2: string)
    requires Less(k1, k2)
    requires Escape(k1) == k1 && Escape(k2) == k2
    requires multiset(ps) == multiset([(k1, v1), (k2, v2)])
    ensures Url(proto, host, path, ps) == proto + "://" + host + path + "?"
      + (k1 + "=" + Escape(v1) + "&" + (k2 + "=" + Escape(v2)))
  {
    UrlCanonical(proto, host, path, ps, [(k1, v1), (k2, v2)]);
    JoinTwo(k1, v1, k2, v2);
  }

  /** `URL().String()` of an address with scheme, host, path and query. */
  function Url(proto: string, host: string, path: string, ps: seq<Param>): (r: string)
    ensures ps == [] ==> r == proto + "://" + host + path
    ensures ps != [] ==> r == proto + "://" + host + path + "?" + Encode(ps)
  {
    var query := Encode(ps);
    proto + "://" + host + path + (if query == "" then "" else "?" + query)
  }
}
