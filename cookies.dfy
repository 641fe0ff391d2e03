/**
 * The session cookie a user pastes: either a full `Cookie:` header value
 * (`key=val; key2=val2`) or just the bare `sessionKey` value, and the
 * removal of the Cloudflare-bound cookies before a request.
 */
module Cookies {
  import opened Wrappers
  import opened Text

  /** The cookie a bare pasted value is stored under. */
  const SessionKey: string := "sessionKey"

  /** Cookies bound to the browser's TLS fingerprint, never forwarded. */
  const CfCookieKeys: set<string> := {"cf_clearance", "__cf_bm", "_cfuvid"}

  /** One `;`-separated piece of a header: a `key=value` pair or something else. */
  datatype Piece = Pair(key: string, value: string) | NoPair

  /**
   * A piece holds a pair when its stripped text contains `=`; the name is
   * the stripped text before the first `=`, the value the stripped rest.
   */
  function PieceOf(part: string): Piece
  {
    var s := Strip(part);
    if '=' in s then
      var kv := Partition(s, '=');
      Pair(Strip(kv.0), Strip(kv.1))
    else NoPair
  }

  /** The pieces of a split header. */
  function Pieces(parts: seq<string>): (r: seq<Piece>)
    ensures |r| == |parts|
    ensures forall i :: 0 <= i < |parts| ==> r[i] == PieceOf(parts[i])
  {
    seq(|parts|, i requires 0 <= i < |parts| => PieceOf(parts[i]))
  }

  /**
   * The cookies of the first `n` pieces, each later pair overwriting an
   * earlier one of the same name.
   */
  function CookiesOf(pieces: seq<Piece>, n: nat): map<string, string>
    requires n <= |pieces|
  {
    if n == 0 then map[]
    else
      var m := CookiesOf(pieces, n - 1);
      match pieces[n - 1]
      case Pair(k, v) => m[k := v]
      case NoPair => m
  }

  /** `parse_cookie_string` */
  function ParseCookies(raw: string): map<string, string>
  {
    var s := Strip(raw);
    if '=' !in s then map[SessionKey := s]
    else var pieces := Pieces(Split(s, ';')); CookiesOf(pieces, |pieces|)
  }

  /**
   * `parse_cookie_string`: strip the input; without any `=` it is the bare
   * session key; otherwise split on `;` and store every stripped
   * `key=value` piece, splitting each at its first `=`.
   */
  method ParseCookieString(raw: string) returns (cookies: map<string, string>)
    ensures cookies == ParseCookies(raw)
  {
    var s := Strip(raw);
    if '=' !in s {
      return map[SessionKey := s];
    }
    cookies := StorePairs(Split(s, ';'));
  }

  /** The loop of `parse_cookie_string` over the `;`-separated pieces. */
  method StorePairs(parts: seq<string>) returns (cookies: map<string, string>)
    ensures cookies == CookiesOf(Pieces(parts), |parts|)
  {
    cookies := map[];
    var i := 0;
    while i < |parts|
      invariant 0 <= i <= |parts|
      invariant cookies == CookiesOf(Pieces(parts), i)
    {
      CookiesOfNext(parts, i);
      cookies := AddPiece(cookies, parts[i]);
      i := i + 1;
    }
  }

  /** The cookies of one more piece of a split header. */
  lemma CookiesOfNext(parts: seq<string>, i: nat)
    requires i < |parts|
    ensures PieceOf(parts[i]).NoPair? ==> CookiesOf(Pieces(parts), i + 1) == CookiesOf(Pieces(parts), i)
    ensures PieceOf(parts[i]).Pair? ==>
      CookiesOf(Pieces(parts), i + 1) == CookiesOf(Pieces(parts), i)[PieceOf(parts[i]).key := PieceOf(parts[i]).value]
  {
    assert Pieces(parts)[i] == PieceOf(parts[i]);
  }

  /** One round of the parsing loop: store the piece if it is a pair. */
  method AddPiece(cookies: map<string, string>, raw: string) returns (r: map<string, string>)
    ensures PieceOf(raw).NoPair? ==> r == cookies
    ensures PieceOf(raw).Pair? ==> r == cookies[PieceOf(raw).key := PieceOf(raw).value]
  {
    r := cookies;
    var part := Strip(raw);
    if '=' in part {
      var kv := Partition(part, '=');
      r := r[Strip(kv.0) := Strip(kv.1)];
    }
  }

  /** A paste without `=` is taken whole, stripped, as the session key. */
  lemma BareSessionKey(raw: string)
    requires '=' !in Strip(raw)
    ensures ParseCookies(raw) == map[SessionKey := Strip(raw)]
  {
  }

  /** Whether piece `i` is a pair named `k`. */
  predicate Names(pieces: seq<Piece>, i: nat, k: string)
    requires i < |pieces|
  {
    pieces[i].Pair? && pieces[i].key == k
  }

  /** The last of the first `n` pieces that names `k`, if any. */
  function LastNaming(pieces: seq<Piece>, n: nat, k: string): (r: Option<nat>)
    requires n <= |pieces|
    ensures r.Some? ==> r.value < n && Names(pieces, r.value, k)
  {
    if n == 0 then None
    else if Names(pieces, n - 1, k) then Some(n - 1)
    else LastNaming(pieces, n - 1, k)
  }

  /** `LastNaming` finds the last naming piece, and finds none only when there is none. */
  lemma {:induction false} LastNamingMeaning(pieces: seq<Piece>, n: nat, k: string)
    requires n <= |pieces|
    ensures LastNaming(pieces, n, k).None? ==> forall i :: 0 <= i < n ==> !Names(pieces, i, k)
    ensures LastNaming(pieces, n, k).Some? ==>
      forall j :: LastNaming(pieces, n, k).value < j < n ==> !Names(pieces, j, k)
  {
    if n > 0 && !Names(pieces, n - 1, k) {
      LastNamingMeaning(pieces, n - 1, k);
    }
  }

  /**
   * A name is stored exactly when some piece names it, and its value is the
   * one of the LAST piece that names it.
   */
  lemma {:induction false} CookiesLastWins(pieces: seq<Piece>, n: nat, k: string)
    requires n <= |pieces|
    ensures k in CookiesOf(pieces, n) <==> LastNaming(pieces, n, k).Some?
    ensures k in CookiesOf(pieces, n) ==>
      CookiesOf(pieces, n)[k] == pieces[LastNaming(pieces, n, k).value].value
  {
    if n > 0 {
      CookiesLastWins(pieces, n - 1, k);
    }
  }

  /** Whether a name or value is stripped and free of `;` (a name also of `=`). */
  predicate CleanName(k: string) { IsStripped(k) && '=' !in k && ';' !in k }
  predicate CleanValue(v: string) { IsStripped(v) && ';' !in v }

  /** The pair of a piece without `;` has a clean name and value. */
  lemma PieceOfClean(part: string)
    requires ';' !in part
    ensures PieceOf(part).Pair? ==> CleanName(PieceOf(part).key) && CleanValue(PieceOf(part).value)
  {
    var s := Strip(part);
    if '=' in s {
      var kv := Partition(s, '=');
      PartitionParts(s, '=');
      if '=' in Strip(kv.0) { StripChars(kv.0, '='); }
      if ';' in Strip(kv.0) { StripChars(kv.0, ';'); PieceChars(s, kv, ';'); StripChars(part, ';'); }
      if ';' in Strip(kv.1) { StripChars(kv.1, ';'); PieceChars(s, kv, ';'); StripChars(part, ';'); }
    }
  }

  /** Clean pairs make clean cookies. */
  lemma {:induction false} CookiesWellFormed(pieces: seq<Piece>, n: nat)
    requires n <= |pieces|
    requires forall i :: 0 <= i < |pieces| && pieces[i].Pair? ==>
      CleanName(pieces[i].key) && CleanValue(pieces[i].value)
    ensures forall k :: k in CookiesOf(pieces, n) ==> CleanName(k) && CleanValue(CookiesOf(pieces, n)[k])
  {
    if n > 0 {
      CookiesWellFormed(pieces, n - 1);
    }
  }

  /** A character of either side of a partition is a character of the whole. */
  lemma PieceChars(s: string, kv: (string, string), c: char)
    requires s == kv.0 + ['='] + kv.1
    requires c in kv.0 || c in kv.1
    ensures c in s
  {
    if c in kv.0 {
      var i :| 0 <= i < |kv.0| && kv.0[i] == c;
      assert s[i] == c;
    } else {
      var i :| 0 <= i < |kv.1| && kv.1[i] == c;
      assert s[|kv.0| + 1 + i] == c;
    }
  }

  /**
   * What a parsed header holds: names and values are stripped and free of
   * `;`, and names are free of `=`.
   */
  lemma ParsedCookiesWellFormed(raw: string)
    requires '=' in Strip(raw)
    ensures forall k :: k in ParseCookies(raw) ==> CleanName(k) && CleanValue(ParseCookies(raw)[k])
  {
    var parts := Split(Strip(raw), ';');
    var pieces := Pieces(parts);
    SplitPiecesLackSeparator(Strip(raw), ';');
    forall i | 0 <= i < |pieces| && pieces[i].Pair?
      ensures CleanName(pieces[i].key) && CleanValue(pieces[i].value)
    {
      PieceOfClean(parts[i]);
    }
    CookiesWellFormed(pieces, |pieces|);
  }

  /** `_strip_cf_cookies`: every cookie except the Cloudflare-bound ones. */
  function StripCfCookies(cookies: map<string, string>): (r: map<string, string>)
    ensures r.Keys == cookies.Keys - CfCookieKeys
    ensures forall k :: k in r ==> r[k] == cookies[k]
  {
    map k | k in cookies && k !in CfCookieKeys :: cookies[k]
  }
}
