/**
 Blanking Solidity comments and literals: the region scanner of
 scripts/guard_layer_policy.py against a lexer that reads one character at a
 time and looks one ahead.
 */
module SolidityMasking {
  import opened Masking

  // ===== The lexer

  datatype Mode =
    | Code
    | LineOpen            // at the second slash
    | Line
    | BlockOpen           // at the star of the opener
    | Block
    | BlockClose          // at the slash of the closer
    | Quoted(quote: char)
    | Escaped(quote: char)

  predicate IsQuote(c: char) {
    c == '"' || c == '\''
  }

  /** Whether a character is blanked, and the mode for the next one; `peek` is that next character, 0 at the end. */
  function Next(mode: Mode, c: char, peek: char): (bool, Mode) {
    match mode
    case Code =>
      if c == '/' && peek == '/' then (true, LineOpen)
      else if c == '/' && peek == '*' then (true, BlockOpen)
      else if IsQuote(c) then (true, Quoted(c))
      else (false, Code)
    case LineOpen => (true, Line)
    case Line => if c == '\n' then (false, Code) else (true, Line)
    case BlockOpen => (true, Block)
    case Block => if c == '*' && peek == '/' then (true, BlockClose) else (true, Block)
    case BlockClose => (true, Code)
    case Quoted(q) => if c == '\\' then (true, Escaped(q)) else if c == q then (true, Code) else (true, Quoted(q))
    case Escaped(q) => (true, Quoted(q))
  }

  function Peek(s: string, i: nat): char {
    if i < |s| then s[i] else '\0'
  }

  /** The mode in which character `i` is read. */
  function ModeAt(s: string, i: nat): Mode
    requires i <= |s|
  {
    if i == 0 then Code else Next(ModeAt(s, i - 1), s[i - 1], Peek(s, i)).1
  }

  predicate Blanked(s: string, i: nat)
    requires i < |s|
  {
    Next(ModeAt(s, i), s[i], Peek(s, i + 1)).0
  }

  /** The text as the lexer leaves it. */
  function Lexed(s: string): (r: string)
    ensures |r| == |s|
    ensures forall i :: 0 <= i < |s| ==> r[i] == if Blanked(s, i) then Blank(s[i]) else s[i]
  {
    seq(|s|, i requires 0 <= i < |s| => if Blanked(s, i) then Blank(s[i]) else s[i])
  }

  // ===== Runs of the lexer

  predicate AllBlanked(s: string, from: nat, to: nat)
    requires to <= |s|
  {
    forall k :: from <= k < to ==> Blanked(s, k)
  }

  lemma TwoAt(s: string, i: nat, a: char, b: char)
    ensures At(s, i, [a, b]) <==> i + 1 < |s| && s[i] == a && s[i + 1] == b
  {
    if i + 1 < |s| {
      assert s[i..i + 2] == [s[i], s[i + 1]];
    }
  }

  /** A line comment runs to the line feed, which is code again. */
  lemma {:induction false} LineRun(s: string, from: nat, to: nat)
    requires from <= to <= |s| && ModeAt(s, from) == Line && forall k :: from <= k < to ==> s[k] != '\n'
    ensures ModeAt(s, to) == Line && AllBlanked(s, from, to)
  {
    if from < to {
      LineRun(s, from, to - 1);
    }
  }

  lemma {:induction false} BlockRun(s: string, from: nat, to: nat)
    requires from <= to <= |s| && ModeAt(s, from) == Block
    requires forall k :: from <= k < to ==> !(s[k] == '*' && Peek(s, k + 1) == '/')
    ensures ModeAt(s, to) == Block && AllBlanked(s, from, to)
  {
    if from < to {
      BlockRun(s, from, to - 1);
    }
  }

  // ===== The scanner

  lemma FeedAt(s: string, k: nat)
    ensures At(s, k, "\n") <==> k < |s| && s[k] == '\n'
  {
    if k < |s| {
      assert s[k..k + 1] == [s[k]];
    }
  }

  /** Where a line comment that starts at `index` ends, the line feed excluded. */
  method LineEnd(s: string, index: nat) returns (end: nat)
    requires ModeAt'(s, index, Code) && At(s, index, "//")
    ensures index < end <= |s| && AllBlanked(s, index, end) && CodeBegins(s, end)
  {
    TwoAt(s, index, '/', '/');
    assert ModeAt(s, index + 1) == LineOpen && ModeAt(s, index + 2) == Line;
    var feed := Find(s, "\n", index + 2);
    forall k | index + 2 <= k < if feed < 0 then |s| else feed
      ensures s[k] != '\n'
    {
      FeedAt(s, k);
    }
    end := if feed < 0 then |s| else feed;
    if feed >= 0 {
      FeedAt(s, feed);
    }
    LineRun(s, index + 2, end);
  }

  /** Where a block comment that starts at `index` ends. */
  method BlockEnd(s: string, index: nat) returns (end: nat)
    requires ModeAt'(s, index, Code) && At(s, index, "/*")
    ensures index < end <= |s| && AllBlanked(s, index, end) && CodeBegins(s, end)
  {
    TwoAt(s, index, '/', '*');
    assert ModeAt(s, index + 1) == BlockOpen && ModeAt(s, index + 2) == Block;
    var closing := Find(s, "*/", index + 2);
    var stop := if closing < 0 then |s| else closing;
    forall k | index + 2 <= k < stop
      ensures !(s[k] == '*' && Peek(s, k + 1) == '/')
    {
      TwoAt(s, k, '*', '/');
    }
    BlockRun(s, index + 2, stop);
    if closing < 0 {
      end := |s|;
    } else {
      TwoAt(s, closing, '*', '/');
      end := closing + 2;
      assert ModeAt(s, closing + 1) == BlockClose && ModeAt(s, closing + 2) == Code;
    }
  }

  /** Where a literal that starts at `index` ends; a backslash hides the character after it. */
  method QuoteEnd(s: string, index: nat) returns (end: nat)
    requires CodeBegins(s, index) && index < |s| && IsQuote(s[index])
    ensures index < end <= |s| && AllBlanked(s, index, end) && CodeBegins(s, end)
  {
    var quote := s[index];
    end := index + 1;
    while end < |s|
      invariant index < end <= |s| && AllBlanked(s, index, end)
      invariant ModeAt(s, end) == Quoted(quote) || end == |s|
    {
      if s[end] == '\\' {
        assert ModeAt(s, end + 1) == Escaped(quote);
        if end + 1 < |s| {
          assert ModeAt(s, end + 2) == Quoted(quote);
        }
        end := if end + 2 <= |s| then end + 2 else |s|;
        continue;
      }
      if s[end] == quote {
        end := end + 1;
        return;
      }
      end := end + 1;
    }
  }

  ghost predicate ModeAt'(s: string, i: nat, m: Mode) {
    i <= |s| && ModeAt(s, i) == m
  }

  /** The scanner copies code and blanks comments and literals region by region: exactly what the lexer leaves. */
  method SanitizeSolidity(s: string) returns (r: string)
    ensures r == Lexed(s)
  {
    hide Next, Blanked, At, ModeAt;
    var pieces := "";
    var emitted, index := 0, 0;
    CodeFirst(s);
    while index < |s|
      invariant 0 <= emitted <= index <= |s| && pieces == Lexed(s)[..emitted]
      invariant CodeBegins(s, index)
      invariant forall k :: emitted <= k < index ==> !Blanked(s, k)
      decreases |s| - index
    {
      var end := index;
      if At(s, index, "//") {
        OpensInCode(s, index);
        end := LineEnd(s, index);
      } else if At(s, index, "/*") {
        OpensInCode(s, index);
        end := BlockEnd(s, index);
      } else if IsQuote(s[index]) {
        end := QuoteEnd(s, index);
      } else {
        PlainCode(s, index);
        index := index + 1;
        continue;
      }
      RegionDone(s, emitted, index, end);
      pieces := pieces + s[emitted..index] + Masked(s[index..end]);
      emitted, index := end, end;
    }
    RestIsCode(s, emitted);
    r := pieces + s[emitted..];
  }

  /** Character `i` is read as code, or is the line feed that ends a comment. */
  ghost predicate CodeBegins(s: string, i: nat) {
    i <= |s| && (i < |s| ==> ModeAt(s, i) == Code || (ModeAt(s, i) == Line && s[i] == '\n'))
  }

  lemma CodeFirst(s: string)
    ensures CodeBegins(s, 0)
  {
  }

  lemma OpensInCode(s: string, i: nat)
    requires CodeBegins(s, i) && (At(s, i, "//") || At(s, i, "/*"))
    ensures ModeAt'(s, i, Code)
  {
    hide ModeAt;
    TwoAt(s, i, '/', '/');
    TwoAt(s, i, '/', '*');
  }

  lemma PlainCode(s: string, i: nat)
    requires CodeBegins(s, i) && i < |s| && !At(s, i, "//") && !At(s, i, "/*") && !IsQuote(s[i])
    ensures !Blanked(s, i) && CodeBegins(s, i + 1)
  {
    TwoAt(s, i, '/', '/');
    TwoAt(s, i, '/', '*');
  }

  lemma RegionDone(s: string, emitted: nat, index: nat, end: nat)
    requires emitted <= index <= end <= |s| && AllBlanked(s, index, end)
    requires forall k :: emitted <= k < index ==> !Blanked(s, k)
    ensures Lexed(s)[..end] == Lexed(s)[..emitted] + s[emitted..index] + Masked(s[index..end])
  {
    hide Blanked;
    var whole := Lexed(s);
    assert whole[..end] == whole[..emitted] + whole[emitted..index] + whole[index..end];
    assert whole[emitted..index] == s[emitted..index] && whole[index..end] == Masked(s[index..end]);
  }

  lemma RestIsCode(s: string, emitted: nat)
    requires emitted <= |s| && forall k :: emitted <= k < |s| ==> !Blanked(s, k)
    ensures Lexed(s) == Lexed(s)[..emitted] + s[emitted..]
  {
    hide Blanked;
    var whole := Lexed(s);
    assert whole == whole[..emitted] + whole[emitted..];
    assert whole[emitted..] == s[emitted..];
  }

  // ===== Shape and idempotence

  /** Length and line breaks are kept, and everything not blanked is unchanged. */
  lemma LexedKeepsShape(s: string)
    ensures |Lexed(s)| == |s|
    ensures forall i :: 0 <= i < |s| && IsLineBreak(s[i]) ==> Lexed(s)[i] == s[i]
    ensures forall i :: 0 <= i < |s| && !IsLineBreak(s[i]) ==> !IsLineBreak(Lexed(s)[i])
    ensures forall i :: 0 <= i < |s| && Lexed(s)[i] != s[i] ==> Blanked(s, i) && Lexed(s)[i] == ' '
  {
    hide ModeAt, Next;
  }

  /** A character that is not blanked is a line feed or code that opens nothing. */
  lemma NotBlanked(s: string, i: nat)
    requires i < |s| && !Blanked(s, i)
    ensures !IsQuote(s[i]) && (s[i] == '/' ==> Peek(s, i + 1) != '/' && Peek(s, i + 1) != '*')
  {
    hide ModeAt;
  }

  lemma QuietHere(s: string, i: nat)
    requires i < |s|
    ensures var t := Lexed(s); Next(Code, t[i], Peek(t, i + 1)) == (false, Code)
  {
    hide ModeAt, Blanked;
    if !Blanked(s, i) {
      NotBlanked(s, i);
    }
  }

  /** Nothing is left to blank: the lexer reads its own output in code mode throughout. */
  lemma {:induction false} OnlyCodeLeft(s: string, i: nat)
    requires i <= |s|
    ensures ModeAt(Lexed(s), i) == Code
  {
    hide Next, Blanked;
    if i > 0 {
      OnlyCodeLeft(s, i - 1);
      QuietHere(s, i - 1);
    }
  }

  /** Masking twice is masking once. */
  lemma LexedTwice(s: string)
    ensures Lexed(Lexed(s)) == Lexed(s)
  {
    hide ModeAt, Next;
    forall i | 0 <= i < |s|
      ensures Lexed(Lexed(s))[i] == Lexed(s)[i]
    {
      OnlyCodeLeft(s, i);
      QuietHere(s, i);
    }
  }
}
