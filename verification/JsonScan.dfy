/**
The JSON complexity preflight (`src/input.rs`): one pass that counts nesting
and structural tokens without parsing. `Scan` specifies the loop; the JSON
texts of RFC 8259 (sections 2, 4, 5 and 7) are generated by `Print` from
concrete syntax trees, whitespace included.
*/
module JsonScan {
  import opened Options
  import opened Bytes

  const MAX_JSON_NESTING_DEPTH: nat := 64
  const MAX_JSON_STRUCTURAL_TOKENS: nat := 100_000
  const MAX_STORED_JSON_NESTING_DEPTH: nat := MAX_JSON_NESTING_DEPTH + 16
  const MAX_STORED_JSON_STRUCTURAL_TOKENS: nat := MAX_JSON_STRUCTURAL_TOKENS + 4_096

  datatype Limits = Limits(depth: nat, tokens: nat)

  const PAYLOAD_LIMITS := Limits(MAX_JSON_NESTING_DEPTH, MAX_JSON_STRUCTURAL_TOKENS)
  const STORED_LIMITS := Limits(MAX_STORED_JSON_NESTING_DEPTH, MAX_STORED_JSON_STRUCTURAL_TOKENS)

  // ------------------------------------------------------------- scanner

  datatype State =
    | Refused
    | Outside(depth: nat, tokens: nat)
    | Inside(depth: nat, tokens: nat, escaped: bool)

  predicate Opens(b: Byte) { b == OPEN_BRACE || b == OPEN_BRACKET }
  predicate Closes(b: Byte) { b == CLOSE_BRACE || b == CLOSE_BRACKET }
  predicate Separates(b: Byte) { b == COMMA || b == COLON }
  predicate Neutral(b: Byte) { b != QUOTE && !Opens(b) && !Closes(b) && !Separates(b) }

  function ScanByte(limits: Limits, s: State, b: Byte): State {
    match s
    case Refused => Refused
    case Inside(d, t, true) => Inside(d, t, false)
    case Inside(d, t, false) =>
      if b == BACKSLASH then Inside(d, t, true) else if b == QUOTE then Outside(d, t) else s
    case Outside(d, t) =>
      if b == QUOTE then Inside(d, t, false)
      else if Opens(b) then
        if d + 1 > limits.depth || t + 1 > limits.tokens then Refused else Outside(d + 1, t + 1)
      else if Closes(b) then Outside(if d == 0 then 0 else d - 1, t)
      else if Separates(b) then if t + 1 > limits.tokens then Refused else Outside(d, t + 1)
      else s
  }

  function Scan(limits: Limits, s: State, bytes: seq<Byte>): State
    decreases |bytes|
  {
    if bytes == [] then s
    else ScanByte(limits, Scan(limits, s, bytes[..|bytes| - 1]), bytes[|bytes| - 1])
  }

  predicate Accepts(limits: Limits, bytes: seq<Byte>) {
    !Scan(limits, Outside(0, 0), bytes).Refused?
  }

  lemma {:induction false} RefusedStays(limits: Limits, s: State, bytes: seq<Byte>, n: nat)
    requires n <= |bytes| && Scan(limits, s, bytes[..n]).Refused?
    ensures Scan(limits, s, bytes).Refused?
    decreases |bytes| - n
  {
    if n < |bytes| {
      assert bytes[..n + 1][..n] == bytes[..n];
      RefusedStays(limits, s, bytes, n + 1);
    } else {
      assert bytes[..n] == bytes;
    }
  }

  method ValidateJsonComplexityWithLimits(bytes: seq<Byte>, maximumDepth: nat, maximumTokens: nat)
    returns (ok: bool)
    ensures ok <==> Accepts(Limits(maximumDepth, maximumTokens), bytes)
  {
    ghost var limits := Limits(maximumDepth, maximumTokens);
    var inString, escaped := false, false;
    var depth: nat, tokens: nat := 0, 0;
    for i := 0 to |bytes|
      invariant depth <= maximumDepth && tokens <= maximumTokens && (escaped ==> inString)
      invariant Scan(limits, Outside(0, 0), bytes[..i]) ==
        if inString then Inside(depth, tokens, escaped) else Outside(depth, tokens)
    {
      assert bytes[..i + 1][..i] == bytes[..i];
      var byte := bytes[i];
      if inString {
        if escaped {
          escaped := false;
        } else if byte == BACKSLASH {
          escaped := true;
        } else if byte == QUOTE {
          inString := false;
        }
        continue;
      }
      if byte == QUOTE {
        inString := true;
      } else if Opens(byte) {
        depth := depth + 1;
        if depth > maximumDepth {
          RefusedStays(limits, Outside(0, 0), bytes, i + 1);
          return false;
        }
        tokens := tokens + 1;
      } else if Closes(byte) {
        depth := if depth == 0 then 0 else depth - 1;
      } else if Separates(byte) {
        tokens := tokens + 1;
      }
      if tokens > maximumTokens {
        RefusedStays(limits, Outside(0, 0), bytes, i + 1);
        return false;
      }
    }
    assert bytes[..|bytes|] == bytes;
    return true;
  }

  method ValidateJsonComplexity(bytes: seq<Byte>) returns (ok: bool)
    ensures ok <==> Accepts(PAYLOAD_LIMITS, bytes)
  {
    ok := ValidateJsonComplexityWithLimits(bytes, MAX_JSON_NESTING_DEPTH, MAX_JSON_STRUCTURAL_TOKENS);
  }

  method ValidateStoredJsonComplexity(bytes: seq<Byte>) returns (ok: bool)
    ensures ok <==> Accepts(STORED_LIMITS, bytes)
  {
    ok := ValidateJsonComplexityWithLimits(
      bytes, MAX_STORED_JSON_NESTING_DEPTH, MAX_STORED_JSON_STRUCTURAL_TOKENS);
  }

  // -------------------------------------------------------- JSON texts

  /** One character of a string literal. */
  datatype Item =
    | Plain(byte: Byte)
    | Escape(letter: Byte)
    | Unicode(a: Byte, b: Byte, c: Byte, d: Byte)

  type Text = seq<Item>

  /** `Scalar` is a number or one of the three literal names; `Spaced` puts
      whitespace around a value and `pad` whitespace after an opening bracket. */
  datatype Json =
    | Scalar(word: seq<Byte>)
    | String(text: Text)
    | Arr(pad: seq<Byte>, items: seq<Json>)
    | Obj(pad: seq<Byte>, members: seq<Member>)
    | Spaced(before: seq<Byte>, value: Json, after: seq<Byte>)

  datatype Member = Member(before: seq<Byte>, key: Text, after: seq<Byte>, value: Json)

  predicate IsHex(b: Byte) { 48 <= b <= 57 || 65 <= b <= 70 || 97 <= b <= 102 }

  predicate ValidItem(i: Item) {
    match i
    case Plain(b) => b >= 32 && b != QUOTE && b != BACKSLASH
    case Escape(l) => l in {QUOTE, BACKSLASH, SLASH, 98, 102, 110, 114, 116}
    case Unicode(a, b, c, d) => IsHex(a) && IsHex(b) && IsHex(c) && IsHex(d)
  }

  predicate ValidText(t: Text) { forall i :: i in t ==> ValidItem(i) }
  predicate Blank(s: seq<Byte>) { forall b :: b in s ==> b in {9, NEWLINE, RETURN, SPACE} }

  predicate Valid(j: Json) {
    match j
    case Scalar(w) => forall b :: b in w ==> Neutral(b)
    case String(t) => ValidText(t)
    case Arr(pad, items) => Blank(pad) && forall i :: i in items ==> Valid(i)
    case Obj(pad, members) => Blank(pad) && forall m :: m in members ==> ValidMember(m)
    case Spaced(before, v, after) => Blank(before) && Blank(after) && Valid(v)
  }

  predicate ValidMember(m: Member) {
    Blank(m.before) && ValidText(m.key) && Blank(m.after) && Valid(m.value)
  }

  function PrintItem(i: Item): seq<Byte> {
    match i
    case Plain(b) => [b]
    case Escape(l) => [BACKSLASH, l]
    case Unicode(a, b, c, d) => [BACKSLASH, 117, a, b, c, d]
  }

  function PrintItems(t: Text): seq<Byte> {
    if t == [] then [] else PrintItem(t[0]) + PrintItems(t[1..])
  }

  function PrintText(t: Text): seq<Byte> { [QUOTE] + PrintItems(t) + [QUOTE] }

  function Print(j: Json): seq<Byte>
    decreases j
  {
    match j
    case Scalar(w) => w
    case String(t) => PrintText(t)
    case Arr(pad, items) => [OPEN_BRACKET] + pad + PrintElements(items) + [CLOSE_BRACKET]
    case Obj(pad, members) => [OPEN_BRACE] + pad + PrintMembers(members) + [CLOSE_BRACE]
    case Spaced(before, v, after) => before + Print(v) + after
  }

  function PrintElements(items: seq<Json>): seq<Byte>
    decreases items
  {
    if items == [] then []
    else if |items| == 1 then Print(items[0])
    else Print(items[0]) + [COMMA] + PrintElements(items[1..])
  }

  function PrintMember(m: Member): seq<Byte>
    decreases m
  {
    m.before + PrintText(m.key) + m.after + [COLON] + Print(m.value)
  }

  function PrintMembers(members: seq<Member>): seq<Byte>
    decreases members
  {
    if members == [] then []
    else if |members| == 1 then PrintMember(members[0])
    else PrintMember(members[0]) + [COMMA] + PrintMembers(members[1..])
  }

  // --------------------------------------------- what the scanner measures

  function Max(a: nat, b: nat): nat { if a < b then b else a }

  function Commas(n: nat): nat { if n == 0 then 0 else n - 1 }

  /** Nesting depth of the tree. */
  function Depth(j: Json): nat
    decreases j
  {
    match j
    case Scalar(_) => 0
    case String(_) => 0
    case Arr(_, items) => 1 + DepthOfAll(items)
    case Obj(_, members) => 1 + DepthOfMembers(members)
    case Spaced(_, v, _) => Depth(v)
  }

  function DepthOfAll(items: seq<Json>): nat
    decreases items
  {
    if items == [] then 0 else Max(Depth(items[0]), DepthOfAll(items[1..]))
  }

  function DepthOfMembers(members: seq<Member>): nat
    decreases members
  {
    if members == [] then 0 else Max(Depth(members[0].value), DepthOfMembers(members[1..]))
  }

  /** Containers, commas and colons in the tree. */
  function Tokens(j: Json): nat
    decreases j
  {
    match j
    case Scalar(_) => 0
    case String(_) => 0
    case Arr(_, items) => 1 + (TokensOfAll(items) + Commas(|items|))
    case Obj(_, members) => 1 + (TokensOfMembers(members) + Commas(|members|))
    case Spaced(_, v, _) => Tokens(v)
  }

  function TokensOfAll(items: seq<Json>): nat
    decreases items
  {
    if items == [] then 0 else Tokens(items[0]) + TokensOfAll(items[1..])
  }

  /** Colons included. */
  function TokensOfMembers(members: seq<Member>): nat
    decreases members
  {
    if members == [] then 0 else Tokens(members[0].value) + 1 + TokensOfMembers(members[1..])
  }

  /** Scanned outside strings, `text` reaches `depth` more levels, adds
      `tokens` tokens and is refused exactly when either exceeds its limit. */
  ghost predicate Costs(text: seq<Byte>, depth: nat, tokens: nat) {
    forall limits: Limits, d: nat, t: nat :: d <= limits.depth && t <= limits.tokens ==>
      Scan(limits, Outside(d, t), text) == Cost(limits, d, t, depth, tokens)
  }

  function Cost(limits: Limits, d: nat, t: nat, depth: nat, tokens: nat): State {
    if d + depth <= limits.depth && t + tokens <= limits.tokens then Outside(d, t + tokens) else Refused
  }

  lemma {:induction false} ScanConcat(limits: Limits, s: State, a: seq<Byte>, b: seq<Byte>)
    ensures Scan(limits, s, a + b) == Scan(limits, Scan(limits, s, a), b)
    decreases |b|
  {
    if b == [] {
      assert a + b == a;
    } else {
      var front := b[..|b| - 1];
      assert (a + b)[..|a + b| - 1] == a + front;
      ScanConcat(limits, s, a, front);
    }
  }

  lemma {:induction false} ScanOne(limits: Limits, s: State, b: Byte)
    ensures Scan(limits, s, [b]) == ScanByte(limits, s, b)
  {
    assert [b][..0] == [];
    assert Scan(limits, s, []) == s;
  }

  lemma {:induction false} ScanRefused(limits: Limits, bytes: seq<Byte>)
    ensures Scan(limits, Refused, bytes).Refused?
    decreases |bytes|
  {
    if bytes != [] {
      ScanRefused(limits, bytes[..|bytes| - 1]);
    }
  }

  lemma {:induction false} NeutralIsFree(text: seq<Byte>)
    requires forall b :: b in text ==> Neutral(b)
    ensures Costs(text, 0, 0)
    decreases |text|
  {
    if text != [] {
      NeutralIsFree(text[..|text| - 1]);
      assert Neutral(text[|text| - 1]);
    }
  }

  lemma {:induction false} ScanItem(limits: Limits, d: nat, t: nat, i: Item)
    requires ValidItem(i)
    ensures Scan(limits, Inside(d, t, false), PrintItem(i)) == Inside(d, t, false)
  {
    var s := Inside(d, t, false);
    match i
    case Plain(b) => ScanOne(limits, s, b);
    case Escape(l) =>
      assert [BACKSLASH, l] == [BACKSLASH] + [l];
      ScanConcat(limits, s, [BACKSLASH], [l]);
      ScanOne(limits, s, BACKSLASH);
      ScanOne(limits, Inside(d, t, true), l);
    case Unicode(a, b, c, e) =>
      assert PrintItem(i) == [BACKSLASH] + [117] + [a] + [b] + [c] + [e];
      ScanConcat(limits, s, [BACKSLASH] + [117] + [a] + [b] + [c], [e]);
      ScanConcat(limits, s, [BACKSLASH] + [117] + [a] + [b], [c]);
      ScanConcat(limits, s, [BACKSLASH] + [117] + [a], [b]);
      ScanConcat(limits, s, [BACKSLASH] + [117], [a]);
      ScanConcat(limits, s, [BACKSLASH], [117]);
      ScanOne(limits, s, BACKSLASH);
      ScanOne(limits, Inside(d, t, true), 117);
      ScanOne(limits, s, a); ScanOne(limits, s, b); ScanOne(limits, s, c); ScanOne(limits, s, e);
  }

  lemma {:induction false} ScanItems(limits: Limits, d: nat, t: nat, text: Text)
    requires ValidText(text)
    ensures Scan(limits, Inside(d, t, false), PrintItems(text)) == Inside(d, t, false)
  {
    if text != [] {
      ScanItem(limits, d, t, text[0]);
      ScanItems(limits, d, t, text[1..]);
      ScanConcat(limits, Inside(d, t, false), PrintItem(text[0]), PrintItems(text[1..]));
    }
  }

  /** A string literal, whatever it contains, costs nothing. */
  lemma {:induction false} TextIsFree(text: Text)
    requires ValidText(text)
    ensures Costs(PrintText(text), 0, 0)
  {
    forall limits: Limits, d: nat, t: nat
      ensures Scan(limits, Outside(d, t), PrintText(text)) == Outside(d, t)
    {
      ScanOne(limits, Outside(d, t), QUOTE);
      ScanItems(limits, d, t, text);
      ScanOne(limits, Inside(d, t, false), QUOTE);
      ScanConcat(limits, Outside(d, t), [QUOTE], PrintItems(text));
      ScanConcat(limits, Outside(d, t), [QUOTE] + PrintItems(text), [QUOTE]);
    }
  }

  lemma {:induction false} JoinedCosts(a: seq<Byte>, depthA: nat, tokensA: nat, b: seq<Byte>, depthB: nat, tokensB: nat)
    requires Costs(a, depthA, tokensA) && Costs(b, depthB, tokensB)
    ensures Costs(a + b, Max(depthA, depthB), tokensA + tokensB)
  {
    forall limits: Limits, d: nat, t: nat | d <= limits.depth && t <= limits.tokens
      ensures Scan(limits, Outside(d, t), a + b)
        == Cost(limits, d, t, Max(depthA, depthB), tokensA + tokensB)
    {
      ScanConcat(limits, Outside(d, t), a, b);
      assert Scan(limits, Outside(d, t), a) == Cost(limits, d, t, depthA, tokensA);
      if d + depthA <= limits.depth && t + tokensA <= limits.tokens {
        assert Scan(limits, Outside(d, t + tokensA), b) == Cost(limits, d, t + tokensA, depthB, tokensB);
      } else {
        ScanRefused(limits, b);
      }
    }
  }

  lemma {:induction false} SeparatorCosts(separator: Byte)
    requires Separates(separator)
    ensures Costs([separator], 0, 1)
  {
    forall limits, s { ScanOne(limits, s, separator); }
  }

  lemma {:induction false} BlankIsFree(s: seq<Byte>)
    requires Blank(s)
    ensures Costs(s, 0, 0)
  {
    assert forall b :: b in s ==> Neutral(b);
    NeutralIsFree(s);
  }

  lemma {:induction false} SpacedCosts(before: seq<Byte>, body: seq<Byte>, after: seq<Byte>, depth: nat, tokens: nat)
    requires Blank(before) && Blank(after) && Costs(body, depth, tokens)
    ensures Costs(before + body + after, depth, tokens)
  {
    BlankIsFree(before);
    BlankIsFree(after);
    JoinedCosts(before, 0, 0, body, depth, tokens);
    JoinedCosts(before + body, depth, tokens, after, 0, 0);
  }

  lemma {:induction false} SeparatedCosts(a: seq<Byte>, depthA: nat, tokensA: nat, separator: Byte,
                       b: seq<Byte>, depthB: nat, tokensB: nat)
    requires Costs(a, depthA, tokensA) && Separates(separator) && Costs(b, depthB, tokensB)
    ensures Costs(a + [separator] + b, Max(depthA, depthB), tokensA + 1 + tokensB)
  {
    SeparatorCosts(separator);
    JoinedCosts(a, depthA, tokensA, [separator], 0, 1);
    JoinedCosts(a + [separator], depthA, tokensA + 1, b, depthB, tokensB);
  }

  lemma {:induction false} ScanContainer(limits: Limits, d: nat, t: nat, open: Byte, body: seq<Byte>, close: Byte,
                      depth: nat, tokens: nat)
    requires Opens(open) && Closes(close) && Costs(body, depth, tokens)
    requires d <= limits.depth && t <= limits.tokens
    ensures Scan(limits, Outside(d, t), [open] + body + [close])
      == Cost(limits, d, t, 1 + depth, 1 + tokens)
  {
    ScanOne(limits, Outside(d, t), open);
    ScanConcat(limits, Outside(d, t), [open], body);
    ScanConcat(limits, Outside(d, t), [open] + body, [close]);
    ScanRefused(limits, [close]);
    if d + 1 <= limits.depth && t + 1 <= limits.tokens {
      assert Scan(limits, Outside(d + 1, t + 1), body) == Cost(limits, d + 1, t + 1, depth, tokens);
      ScanOne(limits, Outside(d + 1, t + 1 + tokens), close);
    } else {
      ScanRefused(limits, body);
    }
  }

  /** Brackets add one level and one token. */
  lemma {:induction false} ContainerCosts(open: Byte, body: seq<Byte>, close: Byte, depth: nat, tokens: nat)
    requires Opens(open) && Closes(close) && Costs(body, depth, tokens)
    ensures Costs([open] + body + [close], 1 + depth, 1 + tokens)
  {
    forall limits: Limits, d: nat, t: nat | d <= limits.depth && t <= limits.tokens {
      ScanContainer(limits, d, t, open, body, close, depth, tokens);
    }
  }

  lemma {:induction false} PaddedCosts(open: Byte, pad: seq<Byte>, body: seq<Byte>, close: Byte, depth: nat, tokens: nat)
    requires Opens(open) && Blank(pad) && Closes(close) && Costs(body, depth, tokens)
    ensures Costs([open] + pad + body + [close], 1 + depth, 1 + tokens)
  {
    SpacedCosts(pad, body, [], depth, tokens);
    ContainerCosts(open, pad + body + [], close, depth, tokens);
    assert [open] + (pad + body + []) + [close] == [open] + pad + body + [close];
  }

  lemma {:induction false} ValueCosts(j: Json)
    requires Valid(j)
    ensures Costs(Print(j), Depth(j), Tokens(j))
    decreases j
  {
    match j
    case Scalar(w) => NeutralIsFree(w);
    case String(text) => TextIsFree(text);
    case Arr(pad, items) =>
      ElementsCost(items);
      ArrayCosts(pad, items);
    case Obj(pad, members) =>
      MembersCost(members);
      ObjectCosts(pad, members);
    case Spaced(before, v, after) =>
      ValueCosts(v);
      SpacedCosts(before, Print(v), after, Depth(v), Tokens(v));
  }

  lemma {:induction false} ArrayCosts(pad: seq<Byte>, items: seq<Json>)
    requires Blank(pad)
    requires Costs(PrintElements(items), DepthOfAll(items), TokensOfAll(items) + Commas(|items|))
    ensures Costs(Print(Arr(pad, items)), Depth(Arr(pad, items)), Tokens(Arr(pad, items)))
  {
    PaddedCosts(OPEN_BRACKET, pad, PrintElements(items), CLOSE_BRACKET,
                DepthOfAll(items), TokensOfAll(items) + Commas(|items|));
    var j := Arr(pad, items);
    assert Print(j) == [OPEN_BRACKET] + pad + PrintElements(items) + [CLOSE_BRACKET];
    assert Depth(j) == 1 + DepthOfAll(items) && Tokens(j) == 1 + (TokensOfAll(items) + Commas(|items|));
  }

  lemma {:induction false} ObjectCosts(pad: seq<Byte>, members: seq<Member>)
    requires Blank(pad)
    requires Costs(PrintMembers(members), DepthOfMembers(members), TokensOfMembers(members) + Commas(|members|))
    ensures Costs(Print(Obj(pad, members)), Depth(Obj(pad, members)), Tokens(Obj(pad, members)))
  {
    PaddedCosts(OPEN_BRACE, pad, PrintMembers(members), CLOSE_BRACE,
                DepthOfMembers(members), TokensOfMembers(members) + Commas(|members|));
    var j := Obj(pad, members);
    assert Print(j) == [OPEN_BRACE] + pad + PrintMembers(members) + [CLOSE_BRACE];
    assert Depth(j) == 1 + DepthOfMembers(members);
    assert Tokens(j) == 1 + (TokensOfMembers(members) + Commas(|members|));
  }

  lemma {:induction false} ElementsCost(items: seq<Json>)
    requires forall i :: i in items ==> Valid(i)
    ensures Costs(PrintElements(items), DepthOfAll(items), TokensOfAll(items) + Commas(|items|))
    decreases items
  {
    if items == [] {
      NeutralIsFree([]);
    } else {
      var first, rest := items[0], items[1..];
      ValueCosts(first);
      if rest == [] {
        assert DepthOfAll(rest) == 0 && TokensOfAll(rest) == 0;
      } else {
        ElementsCost(rest);
        SeparatedCosts(Print(first), Depth(first), Tokens(first), COMMA,
                       PrintElements(rest), DepthOfAll(rest), TokensOfAll(rest) + Commas(|rest|));
      }
    }
  }

  lemma {:induction false} MemberCosts(m: Member)
    requires ValidMember(m)
    ensures Costs(PrintMember(m), Depth(m.value), Tokens(m.value) + 1)
    decreases m
  {
    TextIsFree(m.key);
    SpacedCosts(m.before, PrintText(m.key), m.after, 0, 0);
    ValueCosts(m.value);
    SeparatedCosts(m.before + PrintText(m.key) + m.after, 0, 0, COLON,
                   Print(m.value), Depth(m.value), Tokens(m.value));
  }

  lemma {:induction false} MembersCost(members: seq<Member>)
    requires forall m :: m in members ==> ValidMember(m)
    ensures Costs(PrintMembers(members), DepthOfMembers(members), TokensOfMembers(members) + Commas(|members|))
    decreases members
  {
    if members == [] {
      NeutralIsFree([]);
    } else {
      var first, rest := members[0], members[1..];
      MemberCosts(first);
      if rest == [] {
        assert DepthOfMembers(rest) == 0 && TokensOfMembers(rest) == 0;
      } else {
        MembersCost(rest);
        SeparatedCosts(PrintMember(first), Depth(first.value), Tokens(first.value) + 1, COMMA,
                       PrintMembers(rest), DepthOfMembers(rest), TokensOfMembers(rest) + Commas(|rest|));
      }
    }
  }

  /** The preflight accepts a JSON text exactly when its tree is within both limits. */
  lemma {:induction false} AcceptsExactlyWithinLimits(limits: Limits, j: Json)
    requires Valid(j)
    ensures Accepts(limits, Print(j)) <==> Depth(j) <= limits.depth && Tokens(j) <= limits.tokens
  {
    ValueCosts(j);
    assert Scan(limits, Outside(0, 0), Print(j)) == Cost(limits, 0, 0, Depth(j), Tokens(j));
  }

  // ------------------------------------------------------------ wrapping

  /** A JSON text with one value left open. */
  datatype Wrapper =
    | Hole
    | InArr(pad: seq<Byte>, left: seq<Json>, at: Wrapper, right: seq<Json>)
    | InObj(pad: seq<Byte>, lefts: seq<Member>, before: seq<Byte>, key: Text, after: seq<Byte>,
            at: Wrapper, rights: seq<Member>)
    | InSpace(before: seq<Byte>, at: Wrapper, after: seq<Byte>)

  function Plug(w: Wrapper, j: Json): Json {
    match w
    case Hole => j
    case InArr(pad, left, at, right) => Arr(pad, left + [Plug(at, j)] + right)
    case InObj(pad, lefts, before, key, after, at, rights) =>
      Obj(pad, lefts + [Member(before, key, after, Plug(at, j))] + rights)
    case InSpace(before, at, after) => Spaced(before, Plug(at, j), after)
  }

  lemma {:induction false} ElementsSplit(left: seq<Json>, j: Json, right: seq<Json>)
    ensures TokensOfAll(left + [j] + right) == TokensOfAll(left) + Tokens(j) + TokensOfAll(right)
    ensures DepthOfAll(left + [j] + right) == Max(Max(DepthOfAll(left), Depth(j)), DepthOfAll(right))
  {
    if left == [] {
      assert left + [j] + right == [j] + right;
      assert ([j] + right)[1..] == right;
    } else {
      ElementsSplit(left[1..], j, right);
      assert (left + [j] + right)[1..] == left[1..] + [j] + right;
    }
  }

  lemma {:induction false} MembersSplit(left: seq<Member>, m: Member, right: seq<Member>)
    ensures TokensOfMembers(left + [m] + right)
      == TokensOfMembers(left) + Tokens(m.value) + 1 + TokensOfMembers(right)
    ensures DepthOfMembers(left + [m] + right)
      == Max(Max(DepthOfMembers(left), Depth(m.value)), DepthOfMembers(right))
  {
    if left == [] {
      assert left + [m] + right == [m] + right;
      assert ([m] + right)[1..] == right;
    } else {
      MembersSplit(left[1..], m, right);
      assert (left + [m] + right)[1..] == left[1..] + [m] + right;
    }
  }

  const NULL := Scalar([110, 117, 108, 108])

  /** Wrapping adds the wrapper's own tokens and at most its own depth. */
  lemma {:induction false} WrapperAdds(w: Wrapper, j: Json)
    ensures Tokens(Plug(w, j)) == Tokens(Plug(w, NULL)) + Tokens(j)
    ensures Depth(Plug(w, j)) <= Depth(Plug(w, NULL)) + Depth(j)
  {
    match w
    case Hole =>
    case InArr(pad, left, at, right) =>
      WrapperAdds(at, j);
      ElementsSplit(left, Plug(at, j), right);
      ElementsSplit(left, Plug(at, NULL), right);
    case InObj(pad, lefts, before, key, after, at, rights) =>
      WrapperAdds(at, j);
      MembersSplit(lefts, Member(before, key, after, Plug(at, j)), rights);
      MembersSplit(lefts, Member(before, key, after, Plug(at, NULL)), rights);
    case InSpace(_, at, _) =>
      WrapperAdds(at, j);
  }

  /** A payload the writer accepted stays readable inside any envelope of at
      most 16 levels and 4,096 tokens of its own. */
  lemma {:induction false} StoredEnvelopeIsReadable(w: Wrapper, payload: Json)
    requires Valid(payload) && Valid(Plug(w, payload))
    requires Accepts(PAYLOAD_LIMITS, Print(payload))
    requires Depth(Plug(w, NULL)) <= 16 && Tokens(Plug(w, NULL)) <= 4_096
    ensures Accepts(STORED_LIMITS, Print(Plug(w, payload)))
  {
    AcceptsExactlyWithinLimits(PAYLOAD_LIMITS, payload);
    AcceptsExactlyWithinLimits(STORED_LIMITS, Plug(w, payload));
    WrapperAdds(w, payload);
  }
}
