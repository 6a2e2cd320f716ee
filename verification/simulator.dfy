/** The pure helpers of the simulator's entry point: `any`, the truthy-string
    test, the URL query-parameter lookup, the URL-safe rewriting of base64
    data and the choice of visible menus from the editor mode. */
module Simulator {
  import opened Optional
  import opened Modes
  import opened Strings

  /** `any(bools)`: whether some element is true, scanning left to right and
      stopping at the first true element. */
  method Any(bools: seq<bool>) returns (r: bool)
    ensures r <==> exists i :: 0 <= i < |bools| && bools[i]
    ensures |bools| == 0 ==> !r
  {
    var i := 0;
    while i < |bools|
      invariant 0 <= i <= |bools|
      invariant forall j :: 0 <= j < i ==> !bools[j]
    {
      if bools[i] {
        return true;
      }
      i := i + 1;
    }
    return false;
  }

  /** A JavaScript value of type `string | null | undefined`. */
  datatype NullableString = Null | Undefined | Str(s: string)

  /** The sixteen letter-case spellings of "true". */
  predicate SpellsTrue(s: string) {
    && |s| == 4
    && s[0] in "tT" && s[1] in "rR" && s[2] in "uU" && s[3] in "eE"
  }

  lemma LowerIsTrue(s: string)
    ensures ToLower(s) == "true" <==> SpellsTrue(s)
  {
    if SpellsTrue(s) {
      assert ToLower(s) == "true";
    }
    if ToLower(s) == "true" {
      assert |s| == 4;
      assert LowerChar(s[0]) == 't' && LowerChar(s[1]) == 'r';
      assert LowerChar(s[2]) == 'u' && LowerChar(s[3]) == 'e';
    }
  }

  /** `isTruthyString`: a non-empty string that is "1" or reads "true" once
      lower-cased. */
  function IsTruthyString(str: NullableString): (r: bool)
    ensures r <==> str.Str? && (str.s == "1" || SpellsTrue(str.s))
    ensures str.Null? || str.Undefined? || str == Str("") ==> !r
  {
    LowerIsTrue(if str.Str? then str.s else "");
    str.Str? && |str.s| > 0 && (str.s == "1" || ToLower(str.s) == "true")
  }

  /** The query part of `window.location.search`: everything after the
      leading '?' (the empty string stays empty). */
  function QueryOf(search: string): (q: string)
    ensures |search| > 0 ==> [search[0]] + q == search
    ensures |search| == 0 ==> q == ""
  {
    if |search| > 0 then search[1..] else ""
  }

  /** The key of one `&`-separated pair: the text before its first '='. */
  function KeyOf(pair: string): string {
    Split(pair, '=')[0]
  }

  /** The value of one pair: the text between its first and second '=' (or
      the end), and `undefined` when it has no '='. */
  function ValueOf(pair: string): Option<string> {
    var parts := Split(pair, '=');
    if |parts| >= 2 then Some(parts[1]) else None
  }

  /** Pair `i` is the first one whose key is `name`. */
  ghost predicate FirstMatch(pairs: seq<string>, name: string, i: int) {
    && 0 <= i < |pairs|
    && KeyOf(pairs[i]) == name
    && forall j :: 0 <= j < i ==> KeyOf(pairs[j]) != name
  }

  /** The lookup loop of `getURLParameter` over the `&`-separated pairs:
      the value of the first pair whose key is `name`, or `default` when no
      key matches. */
  method Lookup(pairs: seq<string>, name: string, default: Option<string>) returns (r: Option<string>)
    ensures forall i :: FirstMatch(pairs, name, i) ==> r == ValueOf(pairs[i])
    ensures (forall i :: 0 <= i < |pairs| ==> KeyOf(pairs[i]) != name) ==> r == default
  {
    var i := 0;
    while i < |pairs|
      invariant 0 <= i <= |pairs|
      invariant forall j :: 0 <= j < i ==> KeyOf(pairs[j]) != name
    {
      // `KeyOf` and `ValueOf` read pieces 0 and 1 of the pair's split on '='.
      if KeyOf(pairs[i]) == name {
        r := ValueOf(pairs[i]);
        forall j | FirstMatch(pairs, name, j) ensures j == i {
          assert KeyOf(pairs[j]) == name;
        }
        return;
      }
      i := i + 1;
    }
    return default;
  }

  /** The `&`-separated pairs of the query of `search`. */
  function Pairs(search: string): (pairs: seq<string>)
    ensures |pairs| >= 1
  {
    Split(QueryOf(search), '&')
  }

  /** `getURLParameter(name, default)` on the given `search` string: the
      value of the first pair whose key is `name`, or `default` when no key
      matches. */
  method GetURLParameter(search: string, name: string, default: Option<string>) returns (r: Option<string>)
    ensures forall i :: FirstMatch(Pairs(search), name, i) ==> r == ValueOf(Pairs(search)[i])
    ensures (forall i :: 0 <= i < |Pairs(search)| ==> KeyOf(Pairs(search)[i]) != name) ==> r == default
  {
    r := Lookup(Pairs(search), name, default);
  }

  /** The query string "?k1=v1&k2=v2&..." built from key/value entries. */
  function BuildQuery(entries: seq<(string, string)>): string
    requires |entries| >= 1
  {
    "?" + Join(seq(|entries|, i requires 0 <= i < |entries| => entries[i].0 + "=" + entries[i].1), '&')
  }

  /** A query built from entries whose keys and values hold neither '&' nor
      '=' splits back into those entries: the lookup sees key `k_i` with
      value `v_i` at position `i`. */
  lemma QueryRoundTrip(entries: seq<(string, string)>)
    requires |entries| >= 1
    requires forall i :: 0 <= i < |entries| ==>
               '&' !in entries[i].0 && '=' !in entries[i].0 && '&' !in entries[i].1 && '=' !in entries[i].1
    ensures var pairs := Pairs(BuildQuery(entries));
            && |pairs| == |entries|
            && forall i :: 0 <= i < |entries| ==>
                 KeyOf(pairs[i]) == entries[i].0 && ValueOf(pairs[i]) == Some(entries[i].1)
  {
    var items := seq(|entries|, i requires 0 <= i < |entries| => entries[i].0 + "=" + entries[i].1);
    assert QueryOf(BuildQuery(entries)) == Join(items, '&');
    forall k | 0 <= k < |items| ensures '&' !in items[k] {
      assert items[k] == entries[k].0 + "=" + entries[k].1;
    }
    SplitJoin(items, '&');
    forall i | 0 <= i < |entries|
      ensures KeyOf(items[i]) == entries[i].0 && ValueOf(items[i]) == Some(entries[i].1)
    {
      var kv := [entries[i].0, entries[i].1];
      assert Join(kv, '=') == items[i];
      SplitJoin(kv, '=');
    }
  }

  /** The URL-safe rewriting applied to base64 data before it is put in the
      address: '+' becomes '-', '/' becomes '_' and '=' becomes "%3D". */
  function EncodeUrlSafe(b64: string): (r: string)
    ensures '+' !in r && '/' !in r && '=' !in r
    ensures forall d :: d in r ==> d in b64 || d in "-_%3D"
    ensures |b64| == 1 ==> r == EncodedChar(b64[0])
  {
    ReplaceChar(ReplaceChar(ReplaceChar(b64, '+', "-"), '/', "_"), '=', "%3D")
  }

  /** The character-wise part of decoding: '-' becomes '+' and '_' becomes
      '/'. */
  function DecodedChar(c: char): (d: char)
    ensures c != '-' && c != '_' ==> d == c
    ensures d != '-' && d != '_'
  {
    if c == '-' then '+' else if c == '_' then '/' else c
  }

  /** The first two passes of decoding, `replace(/-/g, "+")` and
      `replace(/_/g, "/")`: together they decode each character on its
      own. */
  function DecodeChars(data: string): (y: string)
    ensures |y| == |data|
    ensures forall i :: 0 <= i < |data| ==> y[i] == DecodedChar(data[i])
    ensures '-' !in y && '_' !in y
    ensures forall d :: d in y ==> d in data || d in "+/"
  {
    ReplaceCharPointwise(data, '-', '+');
    ReplaceCharPointwise(ReplaceChar(data, '-', "+"), '_', '/');
    ReplaceChar(ReplaceChar(data, '-', "+"), '_', "/")
  }

  /** The inverse rewriting applied to the `data` parameter before it is
      base64-decoded: '-' becomes '+', '_' becomes '/' and "%3D" becomes '='. */
  function DecodeUrlSafe(data: string): (r: string)
    ensures '-' !in r && '_' !in r
    ensures forall d :: d in r ==> d in data || d in "+/="
    ensures |data| == 0 ==> r == ""
    ensures |data| == 1 ==> r == [DecodedChar(data[0])]
    ensures data == "%3D" ==> r == "="
  {
    var y := DecodeChars(data);
    assert |data| == 1 ==> y == [DecodedChar(data[0])] && ReplaceAll(y, "%3D", "=") == y by {
      if |data| == 1 {
        ReplaceAllSkip(y, "%3D", "=");
        assert y[1..] == "";
      }
    }
    assert data == "%3D" ==> y == "%3D";
    ReplaceAll(y, "%3D", "=")
  }

  /** The character passes keep and create no "%3D": it starts the decoded
      characters exactly when it starts the data. */
  lemma DecodeCharsPrefix(data: string)
    ensures "%3D" <= DecodeChars(data) <==> "%3D" <= data
  {
    var y := DecodeChars(data);
    if "%3D" <= y {
      assert y[0] == '%' && y[1] == '3' && y[2] == 'D';
      assert data[..3] == "%3D";
    }
  }

  /** Decoding works from the left: a leading "%3D" becomes '=', any other
      leading character is decoded on its own, and decoding goes on after
      it. With the empty case this fixes the result on every string, so
      every '-', '_' and non-overlapping "%3D" is rewritten. */
  lemma DecodeStep(data: string)
    requires |data| > 0
    ensures "%3D" <= data ==> DecodeUrlSafe(data) == "=" + DecodeUrlSafe(data[3..])
    ensures !("%3D" <= data) ==> DecodeUrlSafe(data) == [DecodedChar(data[0])] + DecodeUrlSafe(data[1..])
  {
    var y := DecodeChars(data);
    DecodeCharsPrefix(data);
    if "%3D" <= data {
      assert y[3..] == DecodeChars(data[3..]);
      assert y == "%3D" + y[3..];
      ReplaceAllHit("%3D", "=", y[3..]);
    } else {
      assert y[1..] == DecodeChars(data[1..]);
      ReplaceAllSkip(y, "%3D", "=");
    }
  }

  /** The characters `btoa` produces. */
  predicate IsBase64Char(c: char) {
    'A' <= c <= 'Z' || 'a' <= c <= 'z' || '0' <= c <= '9' || c == '+' || c == '/' || c == '='
  }

  /** The rewriting of a single character. */
  function EncodedChar(c: char): string {
    if c == '+' then "-" else if c == '/' then "_" else if c == '=' then "%3D" else [c]
  }

  /** The three encoding passes act on each character independently. */
  lemma {:induction false} EncodeCons(c: char, rest: string)
    ensures EncodeUrlSafe([c] + rest) == EncodedChar(c) + EncodeUrlSafe(rest)
  {
    ReplaceCharConcat([c], rest, '+', "-");
    var a1 := ReplaceChar([c], '+', "-");
    var b1 := ReplaceChar(rest, '+', "-");
    ReplaceCharConcat(a1, b1, '/', "_");
    var a2 := ReplaceChar(a1, '/', "_");
    var b2 := ReplaceChar(b1, '/', "_");
    ReplaceCharConcat(a2, b2, '=', "%3D");
    assert a1 == (if c == '+' then "-" else [c]);
    assert a2 == (if c == '+' then "-" else if c == '/' then "_" else [c]);
    if c == '=' {
      assert ReplaceChar(a2, '=', "%3D") == "%3D";
    } else {
      ReplaceCharAbsent(a2, '=', "%3D");
    }
  }

  /** Decoding undoes the rewriting of one leading base64 character,
      whatever follows it. */
  lemma DecodeCons(c: char, tail: string)
    requires IsBase64Char(c)
    ensures DecodeUrlSafe(EncodedChar(c) + tail) == [c] + DecodeUrlSafe(tail)
  {
    var data := EncodedChar(c) + tail;
    DecodeStep(data);
    if c == '=' {
      assert data[..3] == "%3D";
      assert data[3..] == tail;
    } else {
      assert data[0] != '%' && DecodedChar(data[0]) == c;
      assert data[1..] == tail;
    }
  }

  /** Decoding the URL-safe rewriting of base64 text gives the text back. */
  lemma {:induction false} UrlSafeRoundTrip(b64: string)
    requires forall i :: 0 <= i < |b64| ==> IsBase64Char(b64[i])
    ensures DecodeUrlSafe(EncodeUrlSafe(b64)) == b64
    decreases |b64|
  {
    if |b64| == 0 {
      return;
    }
    var c, rest := b64[0], b64[1..];
    assert b64 == [c] + rest;
    EncodeCons(c, rest);
    DecodeCons(c, EncodeUrlSafe(rest));
    UrlSafeRoundTrip(rest);
  }

  /** The alphabet condition is needed: a '-' in the input comes back as '+'. */
  lemma DashDoesNotRoundTrip()
    ensures DecodeUrlSafe(EncodeUrlSafe("-")) == "+"
  {
    assert EncodeUrlSafe("-") == "-";
    assert ReplaceChar("-", '-', "+") == "+";
    assert ReplaceChar("+", '_', "/") == "+";
  }

  /** Which menus the editor shows. */
  datatype Menus = Menus(showReset: bool, showRightEditControls: bool, showLeftMenu: bool, showRightMenu: bool)

  /** The menu flags computed at setup from the current mode. */
  function MenusFor(mode: int, levels: ModeLevels): (m: Menus)
    ensures m.showReset <==> mode >= levels.tryout
    ensures m.showRightEditControls <==> mode >= levels.connect
    ensures m.showReset || m.showRightEditControls ==> m.showRightMenu
    ensures m.showRightMenu <==> mode >= levels.tryout || mode >= levels.connect
    ensures m.showLeftMenu <==> mode >= levels.full
  {
    var showReset := mode >= levels.tryout;
    var showRightEditControls := mode >= levels.connect;
    Menus(showReset, showRightEditControls, mode >= levels.full, showReset || showRightEditControls)
  }

  /** Raising the mode never hides a menu. */
  lemma MenusMonotonic(mode: int, mode': int, levels: ModeLevels)
    requires mode <= mode'
    ensures MenusFor(mode, levels).showReset ==> MenusFor(mode', levels).showReset
    ensures MenusFor(mode, levels).showRightEditControls ==> MenusFor(mode', levels).showRightEditControls
    ensures MenusFor(mode, levels).showLeftMenu ==> MenusFor(mode', levels).showLeftMenu
    ensures MenusFor(mode, levels).showRightMenu ==> MenusFor(mode', levels).showRightMenu
  {
  }
}
