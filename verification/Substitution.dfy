/** Filling templates: one `ReplaceAll` per variable, in whatever order a map is iterated, against the
  * simultaneous substitution that is meant.
  */
module Substitution {
  import opened GoStrings

  // ---- strings.ReplaceAll ----

  /** `strings.ReplaceAll` with a non-empty pattern: leftmost matches, not overlapping. */
  function ReplaceAll(s: string, key: string, value: string): string
    requires key != ""
  {
    if s == "" then ""
    else if key <= s then value + ReplaceAll(s[|key|..], key, value)
    else [s[0]] + ReplaceAll(s[1..], key, value)
  }

  // ---- placeholders ----

  predicate NoBrace(s: string) {
    forall i :: 0 <= i < |s| ==> s[i] != '{' && s[i] != '}'
  }

  /** A name in braces. */
  predicate IsKey(key: string) {
    |key| >= 2 && key[0] == '{' && key[|key| - 1] == '}' && NoBrace(key[1..|key| - 1])
  }

  type Values = map<string, string>

  predicate Keys(m: Values) {
    forall key :: key in m ==> IsKey(key)
  }

  /** Neither does the key lie in the text nor does an end of the text begin the key. */
  predicate Apart(text: string, key: string) {
    forall i :: 0 <= i < |text| ==> !(key <= text[i..]) && !(text[i..] <= key)
  }

  /** No value can bring about another variable's placeholder, unless that one stands for itself. */
  predicate Harmless(m: Values) {
    forall a, b :: a in m && b in m && a != b ==> m[b] == b || Apart(m[a], b)
  }

  /** Length of the text up to and including the first closing brace; zero if there is none. */
  function TokenLength(s: string): (n: nat)
    ensures n <= |s|
    ensures n > 0 ==> s[n - 1] == '}' && forall i :: 0 <= i < n - 1 ==> s[i] != '}'
    ensures n == 0 ==> forall i :: 0 <= i < |s| ==> s[i] != '}'
  {
    if s == "" then 0
    else if s[0] == '}' then 1
    else
      var n := TokenLength(s[1..]);
      if n == 0 then 0 else n + 1
  }

  /** Simultaneous substitution: each placeholder of the template is looked up once. */
  function Fill(s: string, m: Values): string {
    if s == "" then ""
    else
      var n := TokenLength(s);
      if s[0] == '{' && n > 0 && s[..n] in m then m[s[..n]] + Fill(s[n..], m)
      else [s[0]] + Fill(s[1..], m)
  }

  /** No second brace is opened before the first one is closed. */
  predicate Simple(s: string, open: bool) {
    s == "" ||
    if s[0] == '{' then !open && Simple(s[1..], true)
    else Simple(s[1..], open && s[0] != '}')
  }

  // ---- one variable ----

  lemma TokenIsKey(s: string, key: string)
    requires IsKey(key) && s != ""
    ensures key <= s <==> s[0] == '{' && TokenLength(s) > 0 && s[..TokenLength(s)] == key
  {
    if key <= s {
      var n := |key|;
      assert forall i :: 1 <= i < n - 1 ==> s[i] == key[1..n - 1][i - 1];
      assert s[n - 1] == '}';
    }
  }

  /** Replacing one variable is filling in that variable alone, on any template. */
  lemma {:induction false} ReplaceIsFill(s: string, key: string, value: string)
    requires IsKey(key)
    ensures ReplaceAll(s, key, value) == Fill(s, map[key := value])
    decreases |s|
  {
    if s != "" {
      TokenIsKey(s, key);
      if key <= s {
        ReplaceIsFill(s[|key|..], key, value);
      } else {
        ReplaceIsFill(s[1..], key, value);
      }
    }
  }

  // ---- filling twice ----

  /** Text without an opening brace is left alone. */
  lemma {:induction false} FillPlain(p: string, s: string, m: Values)
    requires forall i :: 0 <= i < |p| ==> p[i] != '{'
    ensures Fill(p + s, m) == p + Fill(s, m)
    decreases |p|
  {
    if p == "" {
      assert p + s == s;
    } else {
      assert (p + s)[1..] == p[1..] + s;
      FillPlain(p[1..], s, m);
      assert [p[0]] + (p[1..] + Fill(s, m)) == p + Fill(s, m);
    }
  }

  /** A simple template that starts with a brace: a token without inner braces and a simple rest, or
    * no closing brace and no further brace at all.
    */
  lemma SimpleToken(s: string)
    requires s != "" && s[0] == '{' && Simple(s, false)
    ensures var n := TokenLength(s);
            if n > 0 then IsKey(s[..n]) && Simple(s[n..], false) else NoBrace(s[1..])
  {
    OpenToken(s[1..]);
    var n := TokenLength(s);
    if n > 0 {
      assert TokenLength(s[1..]) == n - 1;
      assert s[..n][1..n - 1] == s[1..][..n - 2];
      assert s[1..][n - 1..] == s[n..];
    }
  }

  lemma {:induction false} OpenToken(s: string)
    requires Simple(s, true)
    ensures var n := TokenLength(s);
            if n > 0 then NoBrace(s[..n - 1]) && Simple(s[n..], false) else NoBrace(s)
  {
    if s != "" && s[0] != '}' {
      OpenToken(s[1..]);
      var n := TokenLength(s);
      if n > 0 {
        assert s[..n - 1] == [s[0]] + s[1..][..n - 2];
        assert s[1..][n - 1..] == s[n..];
      }
    } else if s != "" {
      assert s[..0] == "" && s[1..] == s[1..];
    }
  }

  lemma FillStep(s: string, m: Values)
    requires s != ""
    ensures var n := TokenLength(s);
            Fill(s, m) == if s[0] == '{' && n > 0 && s[..n] in m then m[s[..n]] + Fill(s[n..], m) else [s[0]] + Fill(s[1..], m)
  {}

  /** One step of filling a simple template that starts with a token. */
  lemma FillToken(token: string, rest: string, m: Values)
    requires IsKey(token)
    ensures Fill(token + rest, m) == (if token in m then m[token] else token) + Fill(rest, m)
  {
    hide Fill, TokenLength, IsKey, NoBrace;
    KeyTail(token);
    var s := token + rest;
    TokenIsKey(s, token);
    FillStep(s, m);
    assert s[|token|..] == rest && s[..|token|] == token;
    if token !in m {
      FillRest(token, rest, m);
    }
  }

  lemma FillRest(token: string, rest: string, m: Values)
    requires IsKey(token)
    ensures [(token + rest)[0]] + Fill((token + rest)[1..], m) == token + Fill(rest, m)
  {
    hide Fill, IsKey;
    KeyTail(token);
    var tail := token[1..];
    FillPlain(tail, rest, m);
    assert token == [token[0]] + tail && (token + rest)[1..] == tail + rest;
  }

  lemma KeyTail(token: string)
    requires IsKey(token)
    ensures token != "" && token[0] == '{' && forall i :: 0 <= i < |token[1..]| ==> token[1..][i] != '{'
  {
    assert forall i :: 0 <= i < |token| - 2 ==> token[1..|token| - 1][i] == token[1..][i];
  }

  /** Without a token nothing is filled in. */
  lemma {:induction false} FillNothing(s: string, m: Values)
    requires NoBrace(s) || (s != "" && s[0] == '{' && NoBrace(s[1..]))
    ensures Fill(s, m) == s
  {
    if s != "" {
      if s[0] == '{' {
        assert TokenLength(s) == 0 by { assert forall i :: 0 < i < |s| ==> s[i] == s[1..][i - 1]; }
        FillNothing(s[1..], m);
      } else {
        assert NoBrace(s[1..]);
        FillNothing(s[1..], m);
      }
    }
  }

  function Merge(m1: Values, m2: Values): Values {
    map key | key in m1.Keys + m2.Keys :: if key in m1 then m1[key] else m2[key]
  }

  /** A value that is apart from all variables stays as it is. */
  lemma {:induction false} FillApart(value: string, s: string, m: Values)
    requires Keys(m) && forall key :: key in m ==> Apart(value, key)
    ensures Fill(value + s, m) == value + Fill(s, m)
    decreases |value|
  {
    hide Fill, TokenLength, IsKey, Apart;
    var all := value + s;
    if value == "" {
      assert all == s;
    } else {
      NotFirstOf(value, s, m);
      FillStep(all, m);
      assert all[1..] == value[1..] + s;
      forall key | key in m ensures Apart(value[1..], key) {
        ApartTail(value, key);
      }
      FillApart(value[1..], s, m);
      assert [all[0]] + (value[1..] + Fill(s, m)) == value + Fill(s, m);
    }
  }

  lemma ApartTail(value: string, key: string)
    requires value != "" && Apart(value, key)
    ensures Apart(value[1..], key)
  {
    forall i | 0 <= i < |value[1..]| ensures !(key <= value[1..][i..]) && !(value[1..][i..] <= key) {
      assert value[1..][i..] == value[i + 1..];
    }
  }

  lemma NotFirstOf(value: string, s: string, m: Values)
    requires value != "" && Keys(m) && forall key :: key in m ==> Apart(value, key)
    ensures var all := value + s; !(all[0] == '{' && TokenLength(all) > 0 && all[..TokenLength(all)] in m)
  {
    hide TokenLength, IsKey;
    var all := value + s;
    forall key | key in m ensures !(key <= all) {
      PrefixOfBoth(key, value, s);
      assert value[0..] == value;
    }
  }

  lemma PrefixOfBoth(key: string, value: string, s: string)
    ensures key <= value + s ==> key <= value || value <= key
  {
    assert key <= value + s ==> if |key| <= |value| then key == value[..|key|] else value == key[..|value|];
  }

  /** Filling one set of variables and then another is filling both at once. */
  lemma {:induction false} FillTwice(s: string, m1: Values, m2: Values)
    requires Simple(s, false) && Keys(m1) && Keys(m2) && m1.Keys !! m2.Keys
    requires forall a, b :: a in m1 && b in m2 ==> Apart(m1[a], b)
    ensures Fill(Fill(s, m1), m2) == Fill(s, Merge(m1, m2))
    decreases |s|
  {
    hide Fill, Apart, IsKey, NoBrace;
    if s == "" {
      FillOfNothing();
    } else if s[0] != '{' {
      var both, rest := Merge(m1, m2), s[1..];
      FillTwice(rest, m1, m2);
      assert [s[0]] + rest == s;
      FillPlain([s[0]], rest, m1);
      FillPlain([s[0]], Fill(rest, m1), m2);
      FillPlain([s[0]], rest, both);
    } else {
      SimpleToken(s);
      var n := TokenLength(s);
      if n > 0 {
        assert s == s[..n] + s[n..];
        FillTwice(s[n..], m1, m2);
        TokenTwice(s[..n], s[n..], m1, m2);
      } else {
        FillNothing(s, m1);
        FillNothing(s, m2);
        FillNothing(s, Merge(m1, m2));
      }
    }
  }

  lemma FillOfNothing()
    ensures forall m: Values :: Fill("", m) == ""
  {}

  lemma TokenTwice(token: string, rest: string, m1: Values, m2: Values)
    requires IsKey(token) && Keys(m2) && m1.Keys !! m2.Keys
    requires forall a, b :: a in m1 && b in m2 ==> Apart(m1[a], b)
    requires Fill(Fill(rest, m1), m2) == Fill(rest, Merge(m1, m2))
    ensures Fill(Fill(token + rest, m1), m2) == Fill(token + rest, Merge(m1, m2))
  {
    hide Fill, Apart, IsKey;
    FillToken(token, rest, m1);
    FillToken(token, rest, Merge(m1, m2));
    if token in m1 {
      FillApart(m1[token], Fill(rest, m1), m2);
    } else {
      FillToken(token, Fill(rest, m1), m2);
    }
  }

  /** A variable that stands for itself changes nothing. */
  lemma {:induction false} FillIdentity(s: string, key: string, m: Values)
    requires IsKey(key) && key !in m && Simple(s, false)
    ensures ReplaceAll(s, key, key) == s
    ensures Fill(s, m[key := key]) == Fill(s, m)
    decreases |s|
  {
    hide Fill, ReplaceAll, IsKey, NoBrace;
    KeyTail(key);
    ReplaceByItself(s, key);
    var more := m[key := key];
    if s == "" {
      FillOfNothing();
    } else if s[0] != '{' {
      FillIdentity(s[1..], key, m);
      assert [s[0]] + s[1..] == s;
      FillPlain([s[0]], s[1..], m);
      FillPlain([s[0]], s[1..], more);
    } else {
      SimpleToken(s);
      var n := TokenLength(s);
      if n > 0 {
        assert s == s[..n] + s[n..];
        FillIdentity(s[n..], key, m);
        FillToken(s[..n], s[n..], m);
        FillToken(s[..n], s[n..], more);
      } else {
        FillNothing(s, m);
        FillNothing(s, more);
      }
    }
  }

  /** Replacing one more variable is filling in one more variable. */
  lemma FillOneMore(s: string, m: Values, key: string, value: string)
    requires Simple(s, false) && Keys(m) && IsKey(key) && key !in m
    requires value == key || forall a :: a in m ==> Apart(m[a], key)
    ensures ReplaceAll(Fill(s, m), key, value) == Fill(s, m[key := value])
  {
    hide Fill, ReplaceAll, Simple, IsKey, Apart;
    if value == key {
      KeyTail(key);
      ReplaceByItself(Fill(s, m), key);
      FillIdentity(s, key, m);
    } else {
      ReplaceIsFill(Fill(s, m), key, value);
      FillTwice(s, m, map[key := value]);
      assert Merge(m, map[key := value]) == m[key := value];
    }
  }

  lemma {:induction false} ReplaceByItself(s: string, key: string)
    requires key != ""
    ensures ReplaceAll(s, key, key) == s
    decreases |s|
  {
    if s != "" {
      if key <= s {
        ReplaceByItself(s[|key|..], key);
        assert key + s[|key|..] == s;
      } else {
        ReplaceByItself(s[1..], key);
        assert [s[0]] + s[1..] == s;
      }
    }
  }

  // ---- every order ----

  /** One `ReplaceAll` after another, in the order of `keys`. */
  function InOrder(s: string, keys: seq<string>, m: Values): string
    requires forall i :: 0 <= i < |keys| ==> keys[i] in m && keys[i] != ""
  {
    if keys == [] then s else ReplaceAll(InOrder(s, keys[..|keys| - 1], m), keys[|keys| - 1], m[keys[|keys| - 1]])
  }

  predicate Distinct(keys: seq<string>) {
    forall i, j :: 0 <= i < j < |keys| ==> keys[i] != keys[j]
  }

  function Restrict(m: Values, keys: seq<string>): Values
    requires forall i :: 0 <= i < |keys| ==> keys[i] in m
  {
    map i | 0 <= i < |keys| :: keys[i] := m[keys[i]]
  }

  lemma RestrictToNone(m: Values)
    ensures Restrict(m, []) == map[]
  {}

  lemma RestrictIsPart(m: Values, keys: seq<string>)
    requires forall i :: 0 <= i < |keys| ==> keys[i] in m
    ensures forall n :: 0 <= n <= |keys| ==> forall key :: key in Restrict(m, keys[..n]) ==> key in m && Restrict(m, keys[..n])[key] == m[key]
  {}

  lemma RestrictLast(m: Values, keys: seq<string>)
    requires keys != [] && Distinct(keys) && forall i :: 0 <= i < |keys| ==> keys[i] in m
    ensures var n := |keys| - 1;
            var before := Restrict(m, keys[..n]);
            keys[n] !in before && Restrict(m, keys) == before[keys[n] := m[keys[n]]]
  {
    var n := |keys| - 1;
    var before := Restrict(m, keys[..n]);
    forall i | 0 <= i < n ensures keys[..n][i] == keys[i] {
    }
    assert forall key :: key in before <==> exists i :: 0 <= i < n && keys[i] == key;
  }

  /** Whatever the order of the variables, the result is the simultaneous substitution. */
  lemma {:induction false} AnyOrderFills(s: string, keys: seq<string>, m: Values)
    requires Simple(s, false) && Keys(m) && Harmless(m) && Distinct(keys)
    requires forall i :: 0 <= i < |keys| ==> keys[i] in m
    ensures InOrder(s, keys, m) == Fill(s, Restrict(m, keys))
  {
    hide Fill, ReplaceAll, Simple, IsKey, Apart, Restrict;
    RestrictIsPart(m, keys);
    if keys == [] {
      FillEmpty(s);
      RestrictToNone(m);
    } else {
      var n := |keys| - 1;
      AnyOrderFills(s, keys[..n], m);
      RestrictLast(m, keys);
      FillOneMore(s, Restrict(m, keys[..n]), keys[n], m[keys[n]]);
    }
  }

  lemma {:induction false} FillEmpty(s: string)
    ensures Fill(s, map[]) == s
  {
    if s != "" {
      FillEmpty(s[1..]);
    }
  }

  /** `renderTemplate`, and the string case of `replaceAPIJSONValue`: the map is iterated in any order. */
  method RenderTemplate(template: string, m: Values) returns (out: string)
    requires Keys(m)
    ensures exists keys: seq<string> ::
              && Distinct(keys) && (forall key :: key in keys <==> key in m)
              && (forall i :: 0 <= i < |keys| ==> keys[i] in m && keys[i] != "") && out == InOrder(template, keys, m)
    ensures Simple(template, false) && Harmless(m) ==> out == Fill(template, m)
  {
    hide Fill, ReplaceAll, Simple, NoBrace, Restrict, InOrder, Harmless;
    out := template;
    ghost var keys: seq<string> := [];
    var rest := m.Keys;
    OrderOfNone(template, m);
    while rest != {}
      invariant forall key :: key in m <==> key in keys || key in rest
      invariant forall key :: key in keys ==> key !in rest
      invariant Distinct(keys)
      invariant forall i :: 0 <= i < |keys| ==> keys[i] in m && keys[i] != ""
      invariant out == InOrder(template, keys, m)
      decreases |rest|
    {
      var key :| key in rest;
      OrderGrows(template, keys, key, m);
      out := ReplaceAll(out, key, m[key]);
      keys, rest := keys + [key], rest - {key};
    }
    if Simple(template, false) && Harmless(m) {
      AnyOrderFills(template, keys, m);
      RestrictToAll(m, keys);
    }
  }

  lemma OrderOfNone(s: string, m: Values)
    ensures InOrder(s, [], m) == s
  {}

  lemma OrderGrows(s: string, keys: seq<string>, key: string, m: Values)
    requires forall i :: 0 <= i < |keys| ==> keys[i] in m && keys[i] != ""
    requires key in m && key != ""
    ensures InOrder(s, keys + [key], m) == ReplaceAll(InOrder(s, keys, m), key, m[key])
  {
    assert (keys + [key])[..|keys|] == keys;
  }

  lemma RestrictToAll(m: Values, keys: seq<string>)
    requires forall key :: key in keys <==> key in m
    ensures Restrict(m, keys) == m
  {
    forall key | key in m ensures key in Restrict(m, keys) {
      var i :| 0 <= i < |keys| && keys[i] == key;
    }
  }

  /** Texts with a placeholder between each two. */
  function Woven(texts: seq<string>, placeholders: seq<string>): string
    requires |texts| == |placeholders| + 1
  {
    if placeholders == [] then texts[0] else texts[0] + placeholders[0] + Woven(texts[1..], placeholders[1..])
  }

  /** The values of some placeholders; one that is no variable stands for itself. */
  function ValuesOf(placeholders: seq<string>, m: Values): seq<string> {
    seq(|placeholders|, i requires 0 <= i < |placeholders| => if placeholders[i] in m then m[placeholders[i]] else placeholders[i])
  }

  /** A template of texts without opening braces and placeholders is rendered to the texts with the values
    * between them, whatever braces the values contain.
    */
  lemma {:induction false} FillOfWoven(texts: seq<string>, placeholders: seq<string>, m: Values)
    requires |texts| == |placeholders| + 1 && Keys(m)
    requires forall i, j :: 0 <= i < |texts| && 0 <= j < |texts[i]| ==> texts[i][j] != '{'
    requires forall i :: 0 <= i < |placeholders| ==> IsKey(placeholders[i])
    ensures Fill(Woven(texts, placeholders), m) == Woven(texts, ValuesOf(placeholders, m))
    decreases |texts|
  {
    hide IsKey, Fill;
    if placeholders == [] {
      FillOfNothing();
      FillPlain(texts[0], "", m);
      assert texts[0] + "" == texts[0];
    } else {
      var rest := Woven(texts[1..], placeholders[1..]);
      FillOfWoven(texts[1..], placeholders[1..], m);
      FillPlain(texts[0], placeholders[0] + rest, m);
      FillOfPlaceholder(placeholders[0], rest, m);
      assert texts[0] + placeholders[0] + rest == texts[0] + (placeholders[0] + rest);
      var values := ValuesOf(placeholders, m);
      assert values[1..] == ValuesOf(placeholders[1..], m);
      WovenOfFirst(texts, values);
    }
  }

  lemma WovenOfFirst(texts: seq<string>, between: seq<string>)
    requires |texts| == |between| + 1 && between != []
    ensures Woven(texts, between) == texts[0] + (between[0] + Woven(texts[1..], between[1..]))
  {}

  lemma FillOfPlaceholder(key: string, rest: string, m: Values)
    requires IsKey(key) && Keys(m)
    ensures Fill(key + rest, m) == (if key in m then m[key] else key) + Fill(rest, m)
  {
    hide TokenLength, Keys;
    var s := key + rest;
    TokenIsKey(s, key);
    assert s[|key|..] == rest;
    if key !in m {
      PlainAfterBrace(key);
      assert s[1..] == key[1..] + rest;
      hide Fill;
      FillPlain(key[1..], rest, m);
      assert key == [key[0]] + key[1..];
      assert [key[0]] + (key[1..] + Fill(rest, m)) == key + Fill(rest, m);
    }
  }

  lemma PlainAfterBrace(key: string)
    requires IsKey(key)
    ensures forall i :: 0 <= i < |key[1..]| ==> key[1..][i] != '{'
  {
    assert forall i :: 0 <= i < |key| - 2 ==> key[1..][i] == key[1..|key| - 1][i];
  }

  /** Values without an opening brace are harmless. */
  lemma OpenFreeIsHarmless(m: Values)
    requires Keys(m) && forall key :: key in m ==> '{' !in m[key]
    ensures Harmless(m)
  {
    forall a, b | a in m && b in m ensures Apart(m[a], b) {
      forall i | 0 <= i < |m[a]| ensures !(b <= m[a][i..]) && !(m[a][i..] <= b) {
        assert b[0] == '{' && m[a][i..][0] == m[a][i];
      }
    }
  }

  // ---- the conditions are exact ----

  /** All variables, each once. */
  ghost predicate Orders(keys: seq<string>, m: Values) {
    && Distinct(keys) && (forall key :: key in keys <==> key in m)
    && forall i :: 0 <= i < |keys| ==> keys[i] in m && keys[i] != ""
  }

  lemma {:induction false} ReplaceAbsent(s: string, key: string, value: string)
    requires key != "" && !Contains(s, key)
    ensures ReplaceAll(s, key, value) == s
  {
    if s != "" {
      assert s[0..] == s;
      TailLacks(s, key);
      ReplaceAbsent(s[1..], key, value);
    }
  }

  lemma TailLacks(s: string, key: string)
    requires s != "" && !Contains(s, key)
    ensures !Contains(s[1..], key)
  {
    forall i | 0 <= i <= |s[1..]| ensures !(key <= s[1..][i..]) {
      assert s[1..][i..] == s[i + 1..];
    }
  }

  /** Replacing what is there by something else changes the text. */
  lemma {:induction false} ReplaceChanges(s: string, key: string, value: string)
    requires key != "" && Contains(s, key) && value != key
    ensures ReplaceAll(s, key, value) != s
  {
    ReplaceSize(s, key, value);
  }

  lemma {:induction false} ReplaceSize(s: string, key: string, value: string)
    requires key != "" && value != key
    ensures var r := ReplaceAll(s, key, value);
            && (|key| == |value| ==> |r| == |s|) && (|key| < |value| ==> |r| >= |s|) && (|key| > |value| ==> |r| <= |s|)
            && (Contains(s, key) ==> if |key| == |value| then r != s else |r| != |s|)
    decreases |s|
  {
    hide Contains;
    if s == "" {
      NothingContains(key);
    } else if key <= s {
      ReplaceSize(s[|key|..], key, value);
      assert s[..|key|] == key && ReplaceAll(s, key, value)[..|value|] == value;
    } else {
      ReplaceSize(s[1..], key, value);
      TailContains(s, key);
      assert ReplaceAll(s, key, value)[1..] == ReplaceAll(s[1..], key, value);
    }
  }

  lemma NothingContains(key: string)
    requires key != ""
    ensures !Contains("", key)
  {}

  lemma TailContains(s: string, key: string)
    requires s != "" && !(key <= s)
    ensures Contains(s, key) ==> Contains(s[1..], key)
  {
    if i :| 0 <= i <= |s| && key <= s[i..] {
      assert s[0..] == s;
      assert s[1..][i - 1..] == s[i..];
    }
  }

  lemma {:induction false} OrderOfAbsent(s: string, keys: seq<string>, m: Values)
    requires forall i :: 0 <= i < |keys| ==> keys[i] in m && keys[i] != "" && !Contains(s, keys[i])
    ensures InOrder(s, keys, m) == s
  {
    hide ReplaceAll, Contains;
    if keys != [] {
      var n := |keys| - 1;
      OrderOfAbsent(s, keys[..n], m);
      ReplaceAbsent(s, keys[n], m[keys[n]]);
    }
  }

  lemma {:induction false} Enumerate(keys: set<string>) returns (order: seq<string>)
    ensures Distinct(order) && forall key :: key in order <==> key in keys
    decreases |keys|
  {
    order := [];
    if keys != {} {
      var key :| key in keys;
      var rest := Enumerate(keys - {key});
      order := rest + [key];
    }
  }

  /** If only `a` lies in a template and putting its value there makes `b` appear, the order of `a` and
    * `b` matters, whatever the other variables are.
    */
  lemma TwoOrdersDiffer(s: string, m: Values, a: string, b: string) returns (first: seq<string>, second: seq<string>)
    requires Keys(m) && a in m && b in m && a != b && m[b] != b
    requires forall key :: key in m && key != a ==> !Contains(s, key)
    requires Contains(ReplaceAll(s, a, m[a]), b)
    ensures Orders(first, m) && Orders(second, m) && InOrder(s, first, m) != InOrder(s, second, m)
  {
    hide Contains, ReplaceAll, InOrder, Orders, IsKey;
    var others := Enumerate(m.Keys - {a, b});
    KeysAreTexts(m);
    assert forall i :: 0 <= i < |others| ==> others[i] in m.Keys - {a, b};
    OrderOfAbsent(s, others, m);
    first, second := others + [a] + [b], others + [b] + [a];
    PairIsOrder(others, a, b, m);
    PairIsOrder(others, b, a, m);
    PairAfter(s, others, a, b, m);
    PairAfter(s, others, b, a, m);
    ReplaceAbsent(s, b, m[b]);
    ReplaceChanges(ReplaceAll(s, a, m[a]), b, m[b]);
  }

  lemma KeysAreTexts(m: Values)
    requires Keys(m)
    ensures forall key :: key in m ==> key != ""
  {}

  lemma PairIsOrder(others: seq<string>, a: string, b: string, m: Values)
    requires Distinct(others) && (forall key :: key in others <==> key in m.Keys - {a, b})
    requires a in m && b in m && a != b && forall key :: key in m ==> key != ""
    ensures Orders(others + [a] + [b], m)
  {
    assert forall i :: 0 <= i < |others| ==> others[i] in m.Keys - {a, b};
  }

  lemma PairAfter(s: string, others: seq<string>, a: string, b: string, m: Values)
    requires forall i :: 0 <= i < |others| ==> others[i] in m && others[i] != ""
    requires a in m && b in m && a != "" && b != ""
    ensures InOrder(s, others + [a] + [b], m) == ReplaceAll(ReplaceAll(InOrder(s, others, m), a, m[a]), b, m[b])
  {
    OrderGrows(s, others, a, m);
    OrderGrows(s, others + [a], b, m);
  }

  /** In a placeholder followed by text without an opening brace there is no other placeholder. */
  lemma OnlyPlaceholder(a: string, tail: string, key: string)
    requires IsKey(a) && IsKey(key) && key != a && '{' !in tail
    ensures !Contains(a + tail, key)
  {
    hide TokenLength;
    var s := a + tail;
    TokenIsKey(s, a);
    TokenIsKey(s, key);
    forall i | 0 <= i <= |s| ensures !(key <= s[i..]) {
      if i == 0 {
        assert s[0..] == s;
      } else if i < |s| {
        assert s[i..][0] == s[i];
        assert i < |a| - 1 ==> s[i] == a[1..|a| - 1][i - 1];
        assert key[0] == '{';
      }
    }
  }

  /** For every map whose values are not harmless there is a simple template that two orders fill
    * differently: the placeholder of the bad value, followed by what its end lacks of the other one.
    */
  lemma OrderMatters(m: Values, a: string, b: string) returns (s: string, first: seq<string>, second: seq<string>)
    requires Keys(m) && a in m && b in m && a != b && m[b] != b && !Apart(m[a], b)
    ensures Simple(s, false) && Orders(first, m) && Orders(second, m)
    ensures InOrder(s, first, m) != InOrder(s, second, m)
  {
    hide InOrder, Simple, Contains, Orders, NoBrace;
    var value := m[a];
    var i :| 0 <= i < |value| && (b <= value[i..] || value[i..] <= b);
    var tail := if b <= value[i..] then "" else b[|value| - i..];
    s := a + tail;
    TailOfKey(value, i, b);
    forall key | key in m && key != a ensures !Contains(s, key) {
      OnlyPlaceholder(a, tail, key);
    }
    PlaceholderIsSimple(a, tail);
    ReplaceFirst(a, tail, value);
    ContainsAt(value, tail, i, b);
    first, second := TwoOrdersDiffer(s, m, a, b);
  }

  lemma ContainsAt(value: string, tail: string, i: nat, b: string)
    requires i <= |value| && b <= value[i..] + tail
    ensures Contains(value + tail, b)
  {
    assert (value + tail)[i..] == value[i..] + tail;
  }

  lemma TailOfKey(value: string, i: nat, b: string)
    requires IsKey(b) && i < |value| && (b <= value[i..] || value[i..] <= b)
    ensures var tail := if b <= value[i..] then "" else b[|value| - i..];
            '{' !in tail && b <= value[i..] + tail
  {
    if !(b <= value[i..]) {
      var tail := b[|value| - i..];
      assert value[i..] + tail == b;
      forall j | 0 <= j < |tail| ensures tail[j] != '{' {
        var k := j + |value| - i;
        assert tail[j] == b[k];
        assert k < |b| - 1 ==> b[k] == b[1..|b| - 1][k - 1];
      }
    }
  }

  lemma PlaceholderIsSimple(a: string, tail: string)
    requires IsKey(a) && '{' !in tail
    ensures Simple(a + tail, false)
  {
    var s := a + tail;
    var name := a[1..|a| - 1];
    assert s[1..] == name + ("}" + tail);
    OpenedIsSimple(name, "}" + tail);
  }

  lemma {:induction false} OpenedIsSimple(name: string, tail: string)
    requires NoBrace(name) && '{' !in tail && tail != "" && tail[0] == '}'
    ensures Simple(name + tail, true)
  {
    var s := name + tail;
    if name == "" {
      assert s == tail;
      NoOpenIsSimple(s[1..]);
    } else {
      assert s[1..] == name[1..] + tail;
      OpenedIsSimple(name[1..], tail);
    }
  }

  lemma {:induction false} NoOpenIsSimple(s: string)
    requires '{' !in s
    ensures Simple(s, false)
  {
    if s != "" {
      NoOpenIsSimple(s[1..]);
    }
  }

  lemma ReplaceFirst(a: string, tail: string, value: string)
    requires IsKey(a) && '{' !in tail
    ensures ReplaceAll(a + tail, a, value) == value + tail
  {
    assert (a + tail)[|a|..] == tail;
    NotThere(tail, a, value, 0);
  }

  /** Every order fills every simple template in the same way if and only if the values are harmless. */
  lemma OrderIsIrrelevantExactlyIfHarmless(m: Values)
    requires Keys(m)
    ensures Harmless(m) <==>
              forall s, first, second :: Simple(s, false) && Orders(first, m) && Orders(second, m) ==>
                InOrder(s, first, m) == InOrder(s, second, m)
  {
    hide Simple, IsKey, Apart, InOrder;
    if Harmless(m) {
      forall s, first, second | Simple(s, false) && Orders(first, m) && Orders(second, m)
        ensures InOrder(s, first, m) == InOrder(s, second, m)
      {
        AnyOrderFills(s, first, m);
        AnyOrderFills(s, second, m);
        RestrictToAll(m, first);
        RestrictToAll(m, second);
      }
    } else {
      var a, b :| a in m && b in m && a != b && m[b] != b && !Apart(m[a], b);
      var s, first, second := OrderMatters(m, a, b);
    }
  }

  /** A placeholder inside another one, whose value completes the outer one, makes the order matter, also
    * for harmless values: the template need not be simple for a result, only for a unique one.
    */
  lemma NestedOrderMatters(m: Values, a: string, b: string, x: string, y: string)
    returns (first: seq<string>, second: seq<string>)
    requires Keys(m) && a in m && b in m && a != b && m[b] != b && x != "" && y != "" && b == x + m[a] + y
    ensures Orders(first, m) && Orders(second, m)
    ensures InOrder(x + a + y, first, m) != InOrder(x + a + y, second, m)
  {
    var s := x + a + y;
    PartsOfKey(b, x, m[a], y);
    forall key | key in m && key != a ensures !Contains(s, key) {
      NestedPlaceholder(x, a, y, key);
    }
    ReplaceInside(x, a, y, m[a]);
    NotThere(y, a, m[a], 0);
    assert b[0..] == b;
    first, second := TwoOrdersDiffer(s, m, a, b);
  }

  lemma PartsOfKey(b: string, x: string, value: string, y: string)
    requires IsKey(b) && b == x + value + y && x != "" && y != ""
    ensures x[0] == '{' && NoBrace(x[1..]) && '{' !in y
    ensures forall i :: 0 <= i < |x| ==> x[i] != '}'
  {
    KeyChars(b);
    forall i | 0 <= i < |x| ensures x[i] == b[i] {
    }
    forall i | 0 <= i < |y| ensures y[i] == b[|x| + |value| + i] {
    }
    forall i | 0 <= i < |x[1..]| ensures x[1..][i] == b[i + 1] {
      assert x[1..][i] == x[i + 1];
    }
  }

  lemma KeyChars(key: string)
    requires IsKey(key)
    ensures key[0] == '{' && forall i :: 0 < i < |key| - 1 ==> key[i] != '{' && key[i] != '}'
  {
    forall i | 0 < i < |key| - 1 ensures key[i] != '{' && key[i] != '}' {
      assert key[1..|key| - 1][i - 1] == key[i];
    }
  }

  lemma NestedPlaceholder(x: string, a: string, y: string, key: string)
    requires x != "" && x[0] == '{' && NoBrace(x[1..]) && '{' !in y && IsKey(a) && IsKey(key) && key != a
    requires forall i :: 0 <= i < |x| ==> x[i] != '}'
    ensures !Contains(x + a + y, key)
  {
    var s := x + a + y;
    OnlyPlaceholder(a, y, key);
    forall i | 0 <= i <= |s| ensures !(key <= s[i..]) {
      if i == 0 {
        NotOuter(x, a, y, key);
        assert s[0..] == s;
      } else if i < |x| {
        assert s[i..][0] == x[1..][i - 1];
      } else {
        assert s[i..] == (a + y)[i - |x|..];
      }
    }
  }

  lemma NotOuter(x: string, a: string, y: string, key: string)
    requires x != "" && IsKey(a) && IsKey(key) && forall i :: 0 <= i < |x| ==> x[i] != '}'
    ensures !(key <= x + a + y)
  {
    hide TokenLength;
    var s := x + a + y;
    TokenIsKey(s, key);
    TokenIsKey(a, a);
    TokenBefore(x, a);
    TokenAfter(x + a, y);
    assert s[..|x| + |a|] == x + a;
    InnerBrace(x + a, |x|);
  }

  lemma InnerBrace(t: string, i: nat)
    requires 0 < i < |t| - 1 && t[i] == '{'
    ensures !IsKey(t)
  {
    assert t[1..|t| - 1][i - 1] == t[i];
  }

  /** The renderer's own variables: a specification that reads `{amount}` is filled in differently, depending
    * on whether the amount is replaced before or after it.
    */
  lemma BracesInValuesMatter(m: Values) returns (s: string, first: seq<string>, second: seq<string>)
    requires Keys(m) && "{spec_name}" in m && "{amount}" in m
    requires m["{spec_name}"] == "{amount}" && m["{amount}"] != "{amount}"
    ensures Simple(s, false) && Orders(first, m) && Orders(second, m)
    ensures InOrder(s, first, m) != InOrder(s, second, m)
  {
    hide InOrder, Simple;
    assert "{amount}"[0..] == "{amount}";
    s, first, second := OrderMatters(m, "{spec_name}", "{amount}");
  }

  /** The renderer's own variables: an empty amount inside the quantity's placeholder. */
  lemma NestedBracesMatter(m: Values) returns (first: seq<string>, second: seq<string>)
    requires Keys(m) && "{amount}" in m && "{quantity}" in m && m["{amount}"] == "" && m["{quantity}"] != "{quantity}"
    ensures Orders(first, m) && Orders(second, m)
    ensures InOrder("{quan" + "{amount}" + "tity}", first, m) != InOrder("{quan" + "{amount}" + "tity}", second, m)
  {
    hide InOrder;
    assert "{quantity}" == "{quan" + "" + "tity}";
    first, second := NestedOrderMatters(m, "{amount}", "{quantity}", "{quan", "tity}");
  }

  /** A placeholder after text without a closing brace is replaced where it stands. */
  lemma {:induction false} ReplaceInside(before: string, key: string, after: string, value: string)
    requires IsKey(key) && forall i :: 0 <= i < |before| ==> before[i] != '}'
    ensures ReplaceAll(before + key + after, key, value) == before + value + ReplaceAll(after, key, value)
  {
    hide ReplaceAll;
    var s := before + key + after;
    ReplaceStep(s, key, value);
    if before == "" {
      assert s == key + after && s[|key|..] == after;
    } else {
      NotFirst(before, key, after);
      assert s[1..] == before[1..] + key + after;
      ReplaceInside(before[1..], key, after, value);
      assert [s[0]] + (before[1..] + value + ReplaceAll(after, key, value)) == before + value + ReplaceAll(after, key, value);
    }
  }

  lemma ReplaceStep(s: string, key: string, value: string)
    requires s != "" && key != ""
    ensures ReplaceAll(s, key, value)
         == if key <= s then value + ReplaceAll(s[|key|..], key, value) else [s[0]] + ReplaceAll(s[1..], key, value)
  {}

  lemma NotFirst(before: string, key: string, after: string)
    requires IsKey(key) && before != "" && forall i :: 0 <= i < |before| ==> before[i] != '}'
    ensures !(key <= before + key + after)
  {
    hide TokenLength, IsKey;
    TokenIsKey(before + key + after, key);
    TokenIsKey(key, key);
    TokenBefore(before, key);
    TokenAfter(before + key, after);
  }

  lemma {:induction false} TokenAfter(s: string, after: string)
    requires TokenLength(s) > 0
    ensures TokenLength(s + after) == TokenLength(s)
  {
    assert (s + after)[0] == s[0] && (s + after)[1..] == s[1..] + after;
    if s[0] != '}' {
      TokenAfter(s[1..], after);
    }
  }

  lemma {:induction false} TokenBefore(before: string, key: string)
    requires TokenLength(key) > 0 && forall i :: 0 <= i < |before| ==> before[i] != '}'
    ensures TokenLength(before + key) == |before| + TokenLength(key)
  {
    if before == "" {
      assert before + key == key;
    } else {
      assert (before + key)[1..] == before[1..] + key;
      TokenBefore(before[1..], key);
    }
  }

  lemma PrefixHas(key: string, s: string, i: nat)
    requires i < |key|
    ensures key <= s ==> key[i] in s
  {
    assert key <= s ==> key[i] in s[..|key|];
  }

  /** A key is not found in a text that lacks one of its characters. */
  lemma {:induction false} NotThere(s: string, key: string, value: string, i: nat)
    requires i < |key| && key[i] !in s
    ensures ReplaceAll(s, key, value) == s
  {
    if s != "" {
      PrefixHas(key, s, i);
      NotThere(s[1..], key, value, i);
    }
  }

  // ---- JSON templates ----

  datatype Json = Text(value: string) | Object(fields: map<string, Json>) | Array(items: seq<Json>) | Leaf(json: string)

  /** The same keys, array lengths and non-string leaves; only texts may differ. */
  predicate SameShape(a: Json, b: Json)
    decreases a
  {
    match a
    case Text(_) => b.Text?
    case Leaf(_) => b == a
    case Array(items) =>
      b.Array? && |b.items| == |items| && forall i :: 0 <= i < |items| ==> SameShape(items[i], b.items[i])
    case Object(fields) =>
      b.Object? && b.fields.Keys == fields.Keys && forall key :: key in fields ==> SameShape(fields[key], b.fields[key])
  }

  /** Every text of the template is simple. */
  predicate AllSimple(a: Json)
    decreases a
  {
    match a
    case Text(value) => Simple(value, false)
    case Leaf(_) => true
    case Array(items) => forall i :: 0 <= i < |items| ==> AllSimple(items[i])
    case Object(fields) => forall key :: key in fields ==> AllSimple(fields[key])
  }

  /** Filling in every text of the template at once. */
  function FillTree(a: Json, m: Values): Json
    decreases a
  {
    match a
    case Text(value) => Text(Fill(value, m))
    case Leaf(_) => a
    case Array(items) => Array(seq(|items|, i requires 0 <= i < |items| => FillTree(items[i], m)))
    case Object(fields) => Object(map key | key in fields :: FillTree(fields[key], m))
  }

  /** `replaceAPIJSONValue`. */
  method ReplaceJsonValue(value: Json, m: Values) returns (out: Json)
    requires Keys(m)
    ensures SameShape(value, out)
    ensures AllSimple(value) && Harmless(m) ==> out == FillTree(value, m)
    decreases value, 1
  {
    match value
    case Text(text) =>
      var filled := RenderTemplate(text, m);
      return Text(filled);
    case Object(fields) =>
      var replaced := ReplaceJsonMap(fields, m, value);
      return Object(replaced);
    case Array(items) =>
      var replaced: seq<Json> := [];
      for i := 0 to |items|
        invariant |replaced| == i && forall j :: 0 <= j < i ==> SameShape(items[j], replaced[j])
        invariant AllSimple(value) && Harmless(m) ==> forall j :: 0 <= j < i ==> replaced[j] == FillTree(items[j], m)
      {
        var child := ReplaceJsonValue(items[i], m);
        replaced := replaced + [child];
      }
      return Array(replaced);
    case Leaf(_) => return value;
  }

  /** `replaceAPIJSONMap`; `whole` is the object with these fields. */
  method ReplaceJsonMap(input: map<string, Json>, m: Values, ghost whole: Json) returns (output: map<string, Json>)
    requires Keys(m) && whole == Object(input)
    ensures output.Keys == input.Keys
    ensures forall key :: key in input ==> SameShape(input[key], output[key])
    ensures AllSimple(whole) && Harmless(m) ==> forall key :: key in input ==> output[key] == FillTree(input[key], m)
    decreases whole, 0
  {
    output := map[];
    var rest := input.Keys;
    while rest != {}
      invariant rest <= input.Keys && output.Keys == input.Keys - rest
      invariant forall key :: key in output ==> SameShape(input[key], output[key])
      invariant AllSimple(whole) && Harmless(m) ==> forall key :: key in output ==> output[key] == FillTree(input[key], m)
      decreases |rest|
    {
      var key :| key in rest;
      assert input[key] < whole;
      var child := ReplaceJsonValue(input[key], m);
      output, rest := output[key := child], rest - {key};
    }
  }
}
