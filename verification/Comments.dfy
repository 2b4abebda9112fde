/**
Comment stripping for JSON settings files (`strip_json_comments`).

The reference is a lexer: a text is cut into single code bytes, string
literals, line comments and block comments, each ending at the first place its
own rule allows. The method is the six-state loop over an output buffer.
*/
module Comments {
  import opened Options
  import opened Bytes

  datatype Kind = Code | Text | Line | Block | Open
  datatype Token = Token(kind: Kind, bytes: seq<Byte>)

  predicate IsLineEnd(b: Byte) { b == NEWLINE || b == RETURN }
  predicate IsComment(k: Kind) { k.Line? || k.Block? || k.Open? }

  // ----------------------------------------------------------- the lexer

  /** One past the first star-slash at or after `from`. */
  function BlockEnd(s: seq<Byte>, from: nat): (end: Option<nat>)
    ensures end.Some? ==>
      && from + 2 <= end.value <= |s| && s[end.value - 2] == STAR && s[end.value - 1] == SLASH
    ensures forall i :: (from <= i < |s| - 1 && s[i] == STAR && s[i + 1] == SLASH) ==>
      end.Some? && end.value <= i + 2
    decreases |s| - from
  {
    if from + 2 > |s| then None
    else if s[from] == STAR && s[from + 1] == SLASH then Some(from + 2)
    else BlockEnd(s, from + 1)
  }

  /** The first line ending at or after `from`, or the end of the text. */
  function LineEnd(s: seq<Byte>, from: nat): (end: nat)
    requires from <= |s|
    ensures from <= end <= |s| && (end < |s| ==> IsLineEnd(s[end]))
    ensures forall i :: from <= i < end ==> !IsLineEnd(s[i])
    decreases |s| - from
  {
    if from == |s| || IsLineEnd(s[from]) then from else LineEnd(s, from + 1)
  }

  /** One past the first quote not behind a backslash, or the end of the text. */
  function TextEnd(s: seq<Byte>, from: nat): (end: nat)
    requires from <= |s|
    ensures from <= end <= |s|
    decreases |s| - from
  {
    if from == |s| then from
    else if s[from] == QUOTE then from + 1
    else if s[from] == BACKSLASH && from + 1 < |s| then TextEnd(s, from + 2)
    else TextEnd(s, from + 1)
  }

  predicate StartsWith(s: seq<Byte>, a: Byte, b: Byte) { |s| >= 2 && s[0] == a && s[1] == b }

  function First(s: seq<Byte>): (t: Token)
    requires s != []
    ensures 0 < |t.bytes| <= |s| && t.bytes == s[..|t.bytes|]
  {
    if s[0] == QUOTE then Token(Text, s[..TextEnd(s, 1)])
    else if StartsWith(s, SLASH, SLASH) then Token(Line, s[..LineEnd(s, 2)])
    else if StartsWith(s, SLASH, STAR) then
      var end := BlockEnd(s, 2);
      if end.Some? then Token(Block, s[..end.value]) else Token(Open, s)
    else Token(Code, s[..1])
  }

  function Tokens(s: seq<Byte>): seq<Token>
    decreases |s|
  {
    if s == [] then [] else [First(s)] + Tokens(s[|First(s).bytes|..])
  }

  /** The kind of token each byte belongs to. */
  function Roles(s: seq<Byte>): (roles: seq<Kind>)
    ensures |roles| == |s|
    decreases |s|
  {
    if s == [] then []
    else
      var t := First(s);
      seq(|t.bytes|, i => t.kind) + Roles(s[|t.bytes|..])
  }

  function Blank(b: Byte): Byte { if IsLineEnd(b) then b else SPACE }

  function Blanks(s: seq<Byte>): (r: seq<Byte>)
    ensures |r| == |s| && forall i :: 0 <= i < |s| ==> r[i] == Blank(s[i])
  {
    if s == [] then [] else [Blank(s[0])] + Blanks(s[1..])
  }

  function Rendered(t: Token): seq<Byte> {
    if IsComment(t.kind) then Blanks(t.bytes) else t.bytes
  }

  function Join(prefix: seq<Byte>, rest: Option<seq<Byte>>): Option<seq<Byte>> {
    if rest.None? then None else Some(prefix + rest.value)
  }

  /** The stripped text, or nothing when a block comment never ends. */
  function Strip(s: seq<Byte>): Option<seq<Byte>>
    decreases |s|
  {
    if s == [] then Some([])
    else if First(s).kind.Open? then None
    else Join(Rendered(First(s)), Strip(s[|First(s).bytes|..]))
  }

  // ------------------------------------------------------------ the loop

  datatype State = Normal | InText | Escape | InLine | InBlock | InBlockStar

  /** What one turn of the loop writes, and the state it leaves. */
  function Turn(state: State, t: seq<Byte>): (turn: (seq<Byte>, State))
    requires t != []
    ensures 0 < |turn.0| <= |t|
  {
    var b := t[0];
    match state
    case Normal =>
      if b == QUOTE then ([b], InText)
      else if StartsWith(t, SLASH, SLASH) then ([SPACE, SPACE], InLine)
      else if StartsWith(t, SLASH, STAR) then ([SPACE, SPACE], InBlock)
      else ([b], Normal)
    case InText => ([b], if b == BACKSLASH then Escape else if b == QUOTE then Normal else InText)
    case Escape => ([b], InText)
    case InLine => if IsLineEnd(b) then ([b], Normal) else ([SPACE], InLine)
    case InBlock => ([Blank(b)], if b == STAR then InBlockStar else InBlock)
    case InBlockStar =>
      ([Blank(b)], if b == SLASH then Normal else if b == STAR then InBlockStar else InBlock)
  }

  /** What the loop makes of the rest `t` of its input, entered in `state`. */
  function StripFrom(state: State, t: seq<Byte>): Option<seq<Byte>>
    decreases |t|
  {
    if t == [] then if state.InBlock? || state.InBlockStar? then None else Some([])
    else
      var (written, next) := Turn(state, t);
      Join(written, StripFrom(next, t[|written|..]))
  }

  lemma {:induction false} JoinEnds(a: seq<Byte>, rest: Option<seq<Byte>>)
    ensures Join([], rest) == rest && Join(a, Some([])) == Some(a)
  {
    if rest.Some? {
      assert [] + rest.value == rest.value;
    }
    assert a + [] == a;
  }

  lemma {:induction false} JoinJoin(a: seq<Byte>, b: seq<Byte>, rest: Option<seq<Byte>>)
    ensures Join(a, Join(b, rest)) == Join(a + b, rest)
  {
    if rest.Some? {
      assert a + (b + rest.value) == a + b + rest.value;
    }
  }

  lemma {:induction false} StripFromStep(state: State, t: seq<Byte>)
    requires t != []
    ensures StripFrom(state, t) == Join(Turn(state, t).0, StripFrom(Turn(state, t).1, t[|Turn(state, t).0|..]))
  {}

  lemma {:induction false} JoinThree(s: seq<Byte>, k: nat, end: nat, rest: Option<seq<Byte>>)
    requires k + 2 <= end <= |s|
    ensures Join([s[k]], Join([s[k + 1]], Join(s[k + 2..end], rest))) == Join(s[k..end], rest)
  {
    JoinJoin([s[k + 1]], s[k + 2..end], rest);
    JoinJoin([s[k]], [s[k + 1]] + s[k + 2..end], rest);
    assert [s[k]] + ([s[k + 1]] + s[k + 2..end]) == s[k..end];
  }

  /** Inside a literal the loop copies up to the literal's end. */
  lemma {:induction false} TextRun(s: seq<Byte>, k: nat)
    requires k <= |s|
    ensures StripFrom(InText, s[k..]) == Join(s[k..TextEnd(s, k)], StripFrom(Normal, s[TextEnd(s, k)..]))
    decreases |s| - k
  {
    var end := TextEnd(s, k);
    if k == |s| {
      assert s[k..] == [] && s[k..end] == [];
      JoinEnds([], Some([]));
      return;
    }
    StripFromStep(InText, s[k..]);
    assert s[k..][1..] == s[k + 1..];
    if s[k] == QUOTE {
      assert s[k..end] == [s[k]];
    } else if s[k] == BACKSLASH && k + 1 < |s| {
      StripFromStep(Escape, s[k + 1..]);
      assert s[k + 1..][1..] == s[k + 2..];
      TextRun(s, k + 2);
      JoinThree(s, k, end, StripFrom(Normal, s[end..]));
    } else if s[k] == BACKSLASH {
      assert s[k + 1..] == [] && s[k..end] == [s[k]] && s[end..] == [];
    } else {
      TextRun(s, k + 1);
      JoinJoin([s[k]], s[k + 1..end], StripFrom(Normal, s[end..]));
      assert [s[k]] + s[k + 1..end] == s[k..end];
    }
  }

  lemma {:induction false} BlanksSplit(s: seq<Byte>, k: nat, end: nat)
    requires k < end <= |s|
    ensures Blanks(s[k..end]) == [Blank(s[k])] + Blanks(s[k + 1..end])
  {
    assert s[k..end][0] == s[k] && s[k..end][1..] == s[k + 1..end];
  }

  /** Inside a line comment the loop blanks up to the line's end. */
  lemma {:induction false} LineRun(s: seq<Byte>, k: nat)
    requires k <= |s|
    ensures StripFrom(InLine, s[k..]) == Join(Blanks(s[k..LineEnd(s, k)]), StripFrom(Normal, s[LineEnd(s, k)..]))
    decreases |s| - k
  {
    var end := LineEnd(s, k);
    if k == |s| || IsLineEnd(s[k]) {
      assert s[k..end] == [];
      JoinEnds([], StripFrom(Normal, s[k..]));
      if k < |s| {
        StripFromStep(InLine, s[k..]);
        StripFromStep(Normal, s[k..]);
      }
    } else {
      StripFromStep(InLine, s[k..]);
      assert s[k..][1..] == s[k + 1..];
      LineRun(s, k + 1);
      BlanksSplit(s, k, end);
      JoinJoin([SPACE], Blanks(s[k + 1..end]), StripFrom(Normal, s[end..]));
    }
  }

  /** What is left of a block comment whose search for star-slash is at `k`. */
  function BlockRest(s: seq<Byte>, k: nat, from: nat): Option<seq<Byte>>
    requires from <= k <= |s| && k <= from + 1
  {
    var end := BlockEnd(s, from);
    if end.None? then None else Join(Blanks(s[k..end.value]), StripFrom(Normal, s[end.value..]))
  }

  /** Inside a block comment the loop blanks up to the first star-slash. */
  lemma {:induction false} BlockRun(s: seq<Byte>, k: nat, starred: bool)
    requires k <= |s| && (starred ==> k > 0 && s[k - 1] == STAR)
    ensures if starred then StripFrom(InBlockStar, s[k..]) == BlockRest(s, k, k - 1)
            else StripFrom(InBlock, s[k..]) == BlockRest(s, k, k)
    decreases |s| - k
  {
    if k == |s| {
      return;
    }
    var state := if starred then InBlockStar else InBlock;
    StripFromStep(state, s[k..]);
    assert s[k..][1..] == s[k + 1..];
    if starred && s[k] == SLASH {
      assert BlockEnd(s, k - 1) == Some(k + 1);
      assert Blanks(s[k..k + 1]) == [Blank(s[k])];
    } else {
      if starred { assert BlockEnd(s, k - 1) == BlockEnd(s, k); }
      BlockRun(s, k + 1, s[k] == STAR);
      var end := BlockEnd(s, k);
      if s[k] != STAR { assert end == BlockEnd(s, k + 1); }
      if end.Some? {
        BlanksSplit(s, k, end.value);
        JoinJoin([Blank(s[k])], Blanks(s[k + 1..end.value]), StripFrom(Normal, s[end.value..]));
      }
    }
  }

  /** The six-state loop computes what the lexer says. */
  lemma {:induction false} LoopFollowsLexer(s: seq<Byte>)
    ensures StripFrom(Normal, s) == Strip(s)
    decreases |s|
  {
    if s == [] { return; }
    StripFromStep(Normal, s);
    if s[0] == QUOTE {
      var end := TextEnd(s, 1);
      TextRun(s, 1);
      JoinJoin([QUOTE], s[1..end], StripFrom(Normal, s[end..]));
      assert [QUOTE] + s[1..end] == s[..end];
      LoopFollowsLexer(s[end..]);
    } else if StartsWith(s, SLASH, SLASH) {
      var end := LineEnd(s, 2);
      LineRun(s, 2);
      CommentHead(s, end);
      JoinJoin([SPACE, SPACE], Blanks(s[2..end]), StripFrom(Normal, s[end..]));
      LoopFollowsLexer(s[end..]);
    } else if StartsWith(s, SLASH, STAR) {
      var end := BlockEnd(s, 2);
      BlockRun(s, 2, false);
      if end.Some? {
        CommentHead(s, end.value);
        JoinJoin([SPACE, SPACE], Blanks(s[2..end.value]), StripFrom(Normal, s[end.value..]));
        LoopFollowsLexer(s[end.value..]);
      }
    } else {
      assert s[..1] == [s[0]];
      LoopFollowsLexer(s[1..]);
    }
  }

  lemma {:induction false} CommentHead(s: seq<Byte>, end: nat)
    requires 2 <= end <= |s| && !IsLineEnd(s[0]) && !IsLineEnd(s[1])
    ensures Blanks(s[..end]) == [SPACE, SPACE] + Blanks(s[2..end])
  {
    BlanksSplit(s, 0, end);
    BlanksSplit(s, 1, end);
    assert s[0..end] == s[..end];
  }

  /** One round of the loop: what the state makes of the bytes at hand, written in place. */
  method TakeTurn(input: seq<Byte>, output: array<Byte>, from: State, at: nat) returns (state: State, index: nat)
    requires output.Length == |input| && at < |input|
    requires forall i :: at <= i < |input| ==> output[i] == input[i]
    modifies output
    ensures at < index <= |input|
    ensures output[..at] == old(output[..at])
    ensures (output[at..index], state) == Turn(from, input[at..])
    ensures forall i :: index <= i < |input| ==> output[i] == input[i]
  {
    var byte := input[at];
    state, index := from, at;
    match from {
      case Normal =>
        if byte == QUOTE {
          state := InText;
        } else if byte == SLASH && index + 1 < |input| && input[index + 1] == SLASH {
          output[index] := SPACE;
          output[index + 1] := SPACE;
          index := index + 1;
          state := InLine;
        } else if byte == SLASH && index + 1 < |input| && input[index + 1] == STAR {
          output[index] := SPACE;
          output[index + 1] := SPACE;
          index := index + 1;
          state := InBlock;
        }
      case InText =>
        if byte == BACKSLASH {
          state := Escape;
        } else if byte == QUOTE {
          state := Normal;
        }
      case Escape =>
        state := InText;
      case InLine =>
        if IsLineEnd(byte) {
          state := Normal;
        } else {
          output[index] := SPACE;
        }
      case InBlock =>
        if byte == STAR {
          output[index] := SPACE;
          state := InBlockStar;
        } else if !IsLineEnd(byte) {
          output[index] := SPACE;
        }
      case InBlockStar =>
        if byte == SLASH {
          output[index] := SPACE;
          state := Normal;
        } else if byte == STAR {
          output[index] := SPACE;
        } else {
          if !IsLineEnd(byte) {
            output[index] := SPACE;
          }
          state := InBlock;
        }
    }
    index := index + 1;
    assert output[at..index] == Turn(from, input[at..]).0;
  }

  lemma {:induction false} TurnTaken(before: seq<Byte>, from: State, t: seq<Byte>)
    requires t != []
    ensures var (written, next) := Turn(from, t);
      Join(before, StripFrom(from, t)) == Join(before + written, StripFrom(next, t[|written|..]))
  {
    var (written, next) := Turn(from, t);
    JoinJoin(before, written, StripFrom(next, t[|written|..]));
  }

  method StripJsonComments(input: seq<Byte>) returns (result: Option<seq<Byte>>)
    ensures result == Strip(input)
  {
    var output := new Byte[|input|](i requires 0 <= i < |input| => input[i]);
    var state, index := Normal, 0;
    assert input[0..] == input && output[..0] == [];
    JoinEnds([], StripFrom(Normal, input));
    while index < |input|
      invariant 0 <= index <= |input|
      invariant forall i :: index <= i < |input| ==> output[i] == input[i]
      invariant StripFrom(Normal, input) == Join(output[..index], StripFrom(state, input[index..]))
    {
      ghost var before, at := output[..index], index;
      TurnTaken(before, state, input[index..]);
      state, index := TakeTurn(input, output, state, index);
      assert output[..index] == before + output[at..index];
      assert input[at..][index - at..] == input[index..];
    }
    assert output[..index] == output[..] && input[index..] == [];
    JoinEnds(output[..], None);
    LoopFollowsLexer(input);
    if state.InBlock? || state.InBlockStar? {
      return None;
    }
    return Some(output[..]);
  }

  // ---------------------------------------------------------- properties

  /** Cutting into tokens loses nothing. */
  lemma {:induction false} TokensAreLossless(s: seq<Byte>)
    ensures Concat(Tokens(s)) == s
    decreases |s|
  {
    if s != [] {
      var rest := s[|First(s).bytes|..];
      TokensAreLossless(rest);
      assert Tokens(s)[1..] == Tokens(rest);
    }
  }

  function Concat(tokens: seq<Token>): seq<Byte> {
    if tokens == [] then [] else tokens[0].bytes + Concat(tokens[1..])
  }

  /** Byte for byte: comment bytes other than line endings become spaces and
      every other byte stays where it was. */
  lemma {:induction false} StripBlanksExactlyComments(s: seq<Byte>)
    requires Strip(s).Some?
    ensures |Strip(s).value| == |s|
    ensures forall i :: 0 <= i < |s| ==>
      Strip(s).value[i] == if IsComment(Roles(s)[i]) then Blank(s[i]) else s[i]
    decreases |s|
  {
    if s != [] {
      var n := |First(s).bytes|;
      StripBlanksExactlyComments(s[n..]);
      forall i | 0 <= i < |s|
        ensures Strip(s).value[i] == if IsComment(Roles(s)[i]) then Blank(s[i]) else s[i]
      {
        if i >= n {
          assert s[n..][i - n] == s[i];
          assert Roles(s)[i] == Roles(s[n..])[i - n];
        }
      }
    }
  }

  /** Stripping fails exactly when the text ends inside a block comment. */
  lemma {:induction false} StripFailsExactlyOnOpenBlock(s: seq<Byte>)
    ensures Strip(s).None? <==> (s != [] && Roles(s)[|s| - 1].Open?)
    decreases |s|
  {
    if s != [] && !First(s).kind.Open? {
      var n := |First(s).bytes|;
      StripFailsExactlyOnOpenBlock(s[n..]);
      if n < |s| {
        assert Roles(s)[|s| - 1] == Roles(s[n..])[|s| - n - 1];
      }
    }
  }

  ghost predicate CommentFree(s: seq<Byte>) {
    forall i :: 0 <= i < |s| ==> !IsComment(Roles(s)[i])
  }

  /** A code byte in front keeps a comment-free text comment-free. */
  lemma {:induction false} PrependCode(b: Byte, s: seq<Byte>)
    requires b != QUOTE && CommentFree(s)
    requires b == SLASH && s != [] ==> s[0] != SLASH && s[0] != STAR
    ensures CommentFree([b] + s)
  {
    var t := [b] + s;
    assert First(t) == Token(Code, t[..1]);
    assert t[1..] == s;
    assert Roles(t) == [Code] + Roles(s);
  }

  lemma {:induction false} PrependBlanks(w: seq<Byte>, s: seq<Byte>)
    requires CommentFree(s)
    ensures CommentFree(Blanks(w) + s)
    decreases |w|
  {
    if w == [] {
      assert Blanks(w) + s == s;
    } else {
      PrependBlanks(w[1..], s);
      PrependCode(Blank(w[0]), Blanks(w[1..]) + s);
      assert Blanks(w) + s == [Blank(w[0])] + (Blanks(w[1..]) + s);
    }
  }

  /** Where a literal ends depends only on the literal. */
  lemma {:induction false} TextEndIsLocal(s: seq<Byte>, k: nat, rest: seq<Byte>)
    requires k <= |s|
    requires TextEnd(s, k) < |s| || rest == []
    ensures var end := TextEnd(s, k); TextEnd(s[..end] + rest, k) == end
    decreases |s| - k
  {
    var end := TextEnd(s, k);
    if rest == [] && end == |s| {
      assert s[..end] + rest == s;
    } else if k < |s| && s[k] != QUOTE {
      TextEndIsLocal(s, if s[k] == BACKSLASH && k + 1 < |s| then k + 2 else k + 1, rest);
    }
  }

  lemma {:induction false} PrependText(s: seq<Byte>, rest: seq<Byte>)
    requires s != [] && s[0] == QUOTE && CommentFree(rest)
    requires TextEnd(s, 1) < |s| || rest == []
    ensures CommentFree(s[..TextEnd(s, 1)] + rest)
  {
    var end := TextEnd(s, 1);
    var t := s[..end] + rest;
    TextEndIsLocal(s, 1, rest);
    assert First(t) == Token(Text, t[..end]);
    assert t[end..] == rest;
    assert Roles(t) == seq(end, i => Text) + Roles(rest);
  }

  /** Nothing is left that a reader of the output would take for a comment. */
  lemma {:induction false} StrippedIsCommentFree(s: seq<Byte>)
    requires Strip(s).Some?
    ensures CommentFree(Strip(s).value)
    decreases |s|
  {
    if s == [] { return; }
    var t := First(s);
    var n := |t.bytes|;
    var rest := s[n..];
    StrippedIsCommentFree(rest);
    if t.kind.Code? {
      StripBlanksExactlyComments(rest);
      if rest != [] { assert rest[0] == s[1]; }
      PrependCode(s[0], Strip(rest).value);
      assert t.bytes == [s[0]];
    } else if t.kind.Text? {
      StripBlanksExactlyComments(rest);
      PrependText(s, Strip(rest).value);
    } else {
      PrependBlanks(t.bytes, Strip(rest).value);
    }
  }

  lemma {:induction false} CommentFreeIsUnchanged(s: seq<Byte>)
    requires CommentFree(s)
    ensures Strip(s) == Some(s)
    decreases |s|
  {
    if s == [] { return; }
    var n := |First(s).bytes|;
    assert Roles(s)[0] == First(s).kind;
    forall i | 0 <= i < |s| - n ensures !IsComment(Roles(s[n..])[i]) {
      assert Roles(s)[i + n] == Roles(s[n..])[i];
    }
    CommentFreeIsUnchanged(s[n..]);
    assert s[..n] + s[n..] == s;
  }

  lemma {:induction false} StripIsIdempotent(s: seq<Byte>)
    requires Strip(s).Some?
    ensures Strip(Strip(s).value) == Strip(s)
  {
    StrippedIsCommentFree(s);
    CommentFreeIsUnchanged(Strip(s).value);
  }
}
