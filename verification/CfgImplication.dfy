/**
 Does a cfg expression imply a required atom?  The string-level check of
 scripts/guard_layer_policy.py against a recursion over expression trees.
 */
module CfgImplication {

  // ===== The check on strings

  /** The blanks that Python's `\s` matches in a string. */
  predicate IsSpace(c: char) {
    || c == ' ' || '\t' <= c <= '\r' || '\U{1C}' <= c <= '\U{1F}' || c == '\U{85}' || c == '\U{A0}' || c == '\U{1680}'
    || '\U{2000}' <= c <= '\U{200A}' || c == '\U{2028}' || c == '\U{2029}' || c == '\U{202F}' || c == '\U{205F}'
    || c == '\U{3000}'
  }

  function Squeeze(s: string): (r: string)
    ensures |r| <= |s|
  {
    if s == [] then [] else if IsSpace(s[0]) then Squeeze(s[1..]) else [s[0]] + Squeeze(s[1..])
  }

  /** The pieces between commas outside parentheses; `piece` is the one being read. */
  function Pieces(s: string, depth: int, piece: string): seq<string>
    decreases |s|
  {
    if s == [] then [piece]
    else if s[0] == '(' then Pieces(s[1..], depth + 1, piece + [s[0]])
    else if s[0] == ')' then Pieces(s[1..], depth - 1, piece + [s[0]])
    else if s[0] == ',' && depth == 0 then [piece] + Pieces(s[1..], depth, [])
    else Pieces(s[1..], depth, piece + [s[0]])
  }

  function NonEmpty(pieces: seq<string>): seq<string> {
    if pieces == [] then []
    else (if pieces[0] == [] then [] else [pieces[0]]) + NonEmpty(pieces[1..])
  }

  function SplitArguments(value: string): seq<string> {
    NonEmpty(Pieces(value, 0, []))
  }

  /** Cuts at commas outside parentheses by tracking where the current argument starts. */
  method SplitCfgArguments(value: string) returns (arguments: seq<string>)
    ensures arguments == SplitArguments(value)
  {
    hide Pieces, NonEmpty;
    var found: seq<string> := [];
    var depth, start := 0, 0;
    assert value[0..] == value && value[0..0] == [];
    for index := 0 to |value|
      invariant 0 <= start <= index
      invariant Pieces(value, 0, []) == found + Pieces(value[index..], depth, value[start..index])
    {
      var character := value[index];
      OnePiece(character, value[index + 1..], depth, value[start..index]);
      assert [character] + value[index + 1..] == value[index..];
      assert value[start..index] + [character] == value[start..index + 1] && value[index + 1..index + 1] == [];
      if character == '(' {
        depth := depth + 1;
      } else if character == ')' {
        depth := depth - 1;
      } else if character == ',' && depth == 0 {
        found := found + [value[start..index]];
        start := index + 1;
      }
    }
    assert value[|value|..] == [] && value[start..|value|] == value[start..];
    EndOfPieces(depth, value[start..]);
    found := found + [value[start..]];
    assert Pieces(value, 0, []) == found;
    arguments := DropEmpty(found);
  }

  method DropEmpty(pieces: seq<string>) returns (kept: seq<string>)
    ensures kept == NonEmpty(pieces)
  {
    kept := [];
    for i := 0 to |pieces|
      invariant NonEmpty(pieces) == kept + NonEmpty(pieces[i..])
    {
      assert pieces[i..][1..] == pieces[i + 1..];
      if pieces[i] != [] {
        kept := kept + [pieces[i]];
      }
    }
  }

  predicate Wrapped(value: string, prefix: string) {
    |value| > |prefix| && prefix <= value && value[|value| - 1] == ')'
  }

  /** What stands between a prefix such as "all(" and the closing parenthesis. */
  function Inside(value: string, prefix: string): (r: string)
    requires Wrapped(value, prefix)
    ensures |r| < |value|
  {
    value[|prefix|..|value| - 1]
  }

  lemma {:induction false} PiecesShorter(s: string, depth: int, piece: string)
    ensures forall p :: p in Pieces(s, depth, piece) ==> |p| <= |piece| + |s|
    decreases |s|
  {
    if s != [] {
      PiecesShorter(s[1..], depth + 1, piece + [s[0]]);
      PiecesShorter(s[1..], depth - 1, piece + [s[0]]);
      PiecesShorter(s[1..], depth, piece + [s[0]]);
      PiecesShorter(s[1..], depth, []);
    }
  }

  lemma {:induction false} NonEmptyKept(pieces: seq<string>)
    ensures forall p :: p in NonEmpty(pieces) ==> p in pieces
  {
    if pieces != [] {
      NonEmptyKept(pieces[1..]);
    }
  }

  lemma ArgumentsShorter(value: string)
    ensures forall i :: 0 <= i < |SplitArguments(value)| ==> |SplitArguments(value)[i]| <= |value|
  {
    PiecesShorter(value, 0, []);
    NonEmptyKept(Pieces(value, 0, []));
    forall i | 0 <= i < |SplitArguments(value)|
      ensures |SplitArguments(value)[i]| <= |value|
    {
      assert SplitArguments(value)[i] in NonEmpty(Pieces(value, 0, []));
    }
  }

  function Unwrapped(expression: string): (r: string)
    ensures |r| <= |expression|
  {
    var value := Squeeze(expression);
    if Wrapped(value, "cfg(") then Inside(value, "cfg(") else value
  }

  predicate ImpliesAny(expression: string, required: set<string>)
    decreases |expression|, 1
  {
    var value := Unwrapped(expression);
    if value in required then true
    else if Wrapped(value, "all(") then
      var children := SplitArguments(Inside(value, "all("));
      ArgumentsShorter(Inside(value, "all("));
      exists i :: 0 <= i < |children| && ImpliesAny(children[i], required)
    else if Wrapped(value, "any(") then
      var children := SplitArguments(Inside(value, "any("));
      ArgumentsShorter(Inside(value, "any("));
      children != [] && forall i :: 0 <= i < |children| ==> ImpliesAny(children[i], required)
    else false
  }

  // ===== Expression trees

  datatype Cfg =
    | Atom(name: string)
    | All(args: seq<Cfg>, comma: bool)
    | Any(args: seq<Cfg>, comma: bool)
    | Not(arg: Cfg)

  /** An option or key-value pair as the compiler reads it, without the characters that structure an expression. */
  predicate AtomName(s: string) {
    s != [] && forall i :: 0 <= i < |s| ==> s[i] != '(' && s[i] != ')' && s[i] != ',' && !IsSpace(s[i])
  }

  predicate WellFormed(t: Cfg) {
    match t
    case Atom(name) => AtomName(name)
    case All(args, _) => forall i :: 0 <= i < |args| ==> WellFormed(args[i])
    case Any(args, _) => forall i :: 0 <= i < |args| ==> WellFormed(args[i])
    case Not(arg) => WellFormed(arg)
  }

  /** The text of a tree in front of `rest`; a list may end with a comma. */
  function Print(t: Cfg, rest: string): string
    decreases t, 1
  {
    match t
    case Atom(name) => name + rest
    case All(args, comma) => "all" + ("(" + PrintArgs(args, true, comma, ")" + rest))
    case Any(args, comma) => "any" + ("(" + PrintArgs(args, true, comma, ")" + rest))
    case Not(arg) => "not" + ("(" + Print(arg, ")" + rest))
  }

  function PrintArgs(args: seq<Cfg>, first: bool, comma: bool, rest: string): string
    decreases args, 0
  {
    if args == [] then (if comma && !first then "," else "") + rest
    else (if first then "" else ",") + Print(args[0], PrintArgs(args[1..], false, comma, rest))
  }

  function Text(t: Cfg): string {
    Print(t, "")
  }

  predicate TreeImplies(t: Cfg, required: set<string>) {
    match t
    case Atom(name) => name in required
    case All(args, _) => exists i :: 0 <= i < |args| && TreeImplies(args[i], required)
    case Any(args, _) => args != [] && forall i :: 0 <= i < |args| ==> TreeImplies(args[i], required)
    case Not(_) => false
  }

  /** Whether an expression holds when exactly the atoms in `on` are set. */
  predicate Holds(t: Cfg, on: set<string>) {
    match t
    case Atom(name) => name in on
    case All(args, _) => forall i :: 0 <= i < |args| ==> Holds(args[i], on)
    case Any(args, _) => exists i :: 0 <= i < |args| && Holds(args[i], on)
    case Not(arg) => !Holds(arg, on)
  }

  /** A true answer is a proof: every valuation that satisfies the expression sets a required atom. */
  lemma {:induction false} ImplicationSound(t: Cfg, required: set<string>, on: set<string>)
    requires TreeImplies(t, required) && Holds(t, on)
    ensures exists a :: a in required && a in on
  {
    match t
    case Atom(name) =>
    case All(args, _) =>
      var i :| 0 <= i < |args| && TreeImplies(args[i], required);
      ImplicationSound(args[i], required, on);
    case Any(args, _) =>
      var i :| 0 <= i < |args| && Holds(args[i], on);
      ImplicationSound(args[i], required, on);
    case Not(_) =>
  }

  /** What the check knows of an expression: it looks into neither a negation nor an empty `any`. */
  predicate MayHold(t: Cfg, on: set<string>) {
    match t
    case Atom(name) => name in on
    case All(args, _) => forall i :: 0 <= i < |args| ==> MayHold(args[i], on)
    case Any(args, _) => args == [] || exists i :: 0 <= i < |args| && MayHold(args[i], on)
    case Not(_) => true
  }

  function Atoms(t: Cfg): set<string> {
    match t
    case Atom(name) => {name}
    case All(args, _) => set i, a | 0 <= i < |args| && a in Atoms(args[i]) :: a
    case Any(args, _) => set i, a | 0 <= i < |args| && a in Atoms(args[i]) :: a
    case Not(_) => {}
  }

  /** A false answer has a counterexample: set every atom but the required ones. */
  lemma {:induction false} RefusalRefutes(t: Cfg, required: set<string>, on: set<string>)
    requires !TreeImplies(t, required) && Atoms(t) - required <= on
    ensures MayHold(t, on)
  {
    match t
    case Atom(_) =>
    case Not(_) =>
    case All(args, _) =>
      forall i | 0 <= i < |args|
        ensures MayHold(args[i], on)
      {
        assert Atoms(args[i]) <= Atoms(t);
        RefusalRefutes(args[i], required, on);
      }
    case Any(args, _) =>
      if args != [] {
        var i :| 0 <= i < |args| && !TreeImplies(args[i], required);
        assert Atoms(args[i]) <= Atoms(t);
        RefusalRefutes(args[i], required, on);
      }
  }

  lemma {:induction false} AnswerImplies(t: Cfg, required: set<string>, on: set<string>)
    requires TreeImplies(t, required) && MayHold(t, on)
    ensures exists a :: a in required && a in on
  {
    match t
    case Atom(name) =>
    case All(args, _) =>
      var i :| 0 <= i < |args| && TreeImplies(args[i], required);
      AnswerImplies(args[i], required, on);
    case Any(args, _) =>
      var i :| 0 <= i < |args| && MayHold(args[i], on);
      AnswerImplies(args[i], required, on);
    case Not(_) =>
  }

  ghost predicate Meets(required: set<string>, on: set<string>) {
    exists a :: a in required && a in on
  }

  /** The answer is exact for what the check knows: true precisely when every such valuation sets a required atom. */
  lemma ImplicationExact(t: Cfg, required: set<string>)
    ensures TreeImplies(t, required) <==> forall on: set<string> {:trigger Meets(required, on)} :: MayHold(t, on) ==> Meets(required, on)
  {
    if TreeImplies(t, required) {
      forall on | MayHold(t, on)
        ensures Meets(required, on)
      {
        AnswerImplies(t, required, on);
      }
    } else {
      RefusalRefutes(t, required, Atoms(t) - required);
      assert !Meets(required, Atoms(t) - required);
    }
  }

  /** No negation and no empty `any` anywhere. */
  predicate Positive(t: Cfg) {
    match t
    case Atom(_) => true
    case All(args, _) => forall i :: 0 <= i < |args| ==> Positive(args[i])
    case Any(args, _) => args != [] && forall i :: 0 <= i < |args| ==> Positive(args[i])
    case Not(_) => false
  }

  lemma {:induction false} PositiveHolds(t: Cfg, on: set<string>)
    requires Positive(t)
    ensures MayHold(t, on) <==> Holds(t, on)
  {
    match t
    case Atom(_) =>
    case All(args, _) =>
      forall i | 0 <= i < |args|
        ensures MayHold(args[i], on) <==> Holds(args[i], on)
      {
        PositiveHolds(args[i], on);
      }
    case Any(args, _) =>
      forall i | 0 <= i < |args|
        ensures MayHold(args[i], on) <==> Holds(args[i], on)
      {
        PositiveHolds(args[i], on);
      }
  }

  /** On positive expressions the check decides implication. */
  lemma PositiveExact(t: Cfg, required: set<string>)
    requires Positive(t)
    ensures TreeImplies(t, required) <==> forall on: set<string> {:trigger Meets(required, on)} :: Holds(t, on) ==> Meets(required, on)
  {
    ImplicationExact(t, required);
    forall on: set<string>
      ensures MayHold(t, on) <==> Holds(t, on)
    {
      PositiveHolds(t, on);
    }
  }

  // ===== Printing and splitting

  lemma {:induction false} AtomPieces(name: string, rest: string, depth: int, piece: string)
    requires forall i :: 0 <= i < |name| ==> name[i] != '(' && name[i] != ')' && name[i] != ','
    ensures Pieces(name + rest, depth, piece) == Pieces(rest, depth, piece + name)
  {
    if name == [] {
      assert name + rest == rest && piece + name == piece;
    } else {
      AtomPieces(name[1..], rest, depth, piece + [name[0]]);
      assert (name + rest)[1..] == name[1..] + rest;
      assert piece + [name[0]] + name[1..] == piece + name;
    }
  }

  lemma OnePiece(c: char, rest: string, depth: int, piece: string)
    ensures Pieces([c] + rest, depth, piece) ==
      if c == '(' then Pieces(rest, depth + 1, piece + [c])
      else if c == ')' then Pieces(rest, depth - 1, piece + [c])
      else if c == ',' && depth == 0 then [piece] + Pieces(rest, depth, [])
      else Pieces(rest, depth, piece + [c])
  {
    assert ([c] + rest)[1..] == rest;
  }

  /** Appending text to what a tree prints is the same as printing it in front. */
  lemma {:induction false} PrintSplits(t: Cfg, rest: string)
    ensures Print(t, rest) == Text(t) + rest
    decreases t, 1
  {
    match t
    case Atom(name) => assert name + "" == name;
    case All(args, comma) =>
      PrintArgsSplits(args, true, comma, ")" + rest);
      PrintArgsSplits(args, true, comma, ")" + "");
      Regroup("all", PrintArgs(args, true, comma, ""), rest);
    case Any(args, comma) =>
      PrintArgsSplits(args, true, comma, ")" + rest);
      PrintArgsSplits(args, true, comma, ")" + "");
      Regroup("any", PrintArgs(args, true, comma, ""), rest);
    case Not(arg) =>
      PrintSplits(arg, ")" + rest);
      PrintSplits(arg, ")" + "");
      Regroup("not", Text(arg), rest);
  }

  lemma Regroup(op: string, inner: string, rest: string)
    ensures op + ("(" + (inner + (")" + rest))) == op + ("(" + (inner + (")" + ""))) + rest
  {
  }

  lemma {:induction false} PrintArgsSplits(args: seq<Cfg>, first: bool, comma: bool, rest: string)
    ensures PrintArgs(args, first, comma, rest) == PrintArgs(args, first, comma, "") + rest
    decreases args, 0
  {
    if args != [] {
      var after, alone := PrintArgs(args[1..], false, comma, rest), PrintArgs(args[1..], false, comma, "");
      PrintArgsSplits(args[1..], false, comma, rest);
      PrintSplits(args[0], after);
      PrintSplits(args[0], alone);
      assert Text(args[0]) + (alone + rest) == Text(args[0]) + alone + rest;
    }
  }

  /** A printed tree is swallowed whole: its own commas are inside its parentheses. */
  lemma {:induction false} TreePieces(t: Cfg, rest: string, depth: int, piece: string)
    requires WellFormed(t) && depth >= 0
    ensures Pieces(Print(t, rest), depth, piece) == Pieces(rest, depth, piece + Text(t))
    decreases t, 1
  {
    hide Pieces;
    match t
    case Atom(name) =>
      AtomPieces(name, rest, depth, piece);
      assert name + "" == name;
    case All(args, comma) =>
      Opening("all", PrintArgs(args, true, comma, ")" + rest), depth, piece);
      ArgsPieces(args, true, comma, ")" + rest, depth + 1, piece + "all" + "(");
      PrintArgsSplits(args, true, comma, ")" + "");
      Closing("all", PrintArgs(args, true, comma, ""), rest, depth, piece);
    case Any(args, comma) =>
      Opening("any", PrintArgs(args, true, comma, ")" + rest), depth, piece);
      ArgsPieces(args, true, comma, ")" + rest, depth + 1, piece + "any" + "(");
      PrintArgsSplits(args, true, comma, ")" + "");
      Closing("any", PrintArgs(args, true, comma, ""), rest, depth, piece);
    case Not(arg) =>
      Opening("not", Print(arg, ")" + rest), depth, piece);
      TreePieces(arg, ")" + rest, depth + 1, piece + "not" + "(");
      PrintSplits(arg, ")" + "");
      Closing("not", Text(arg), rest, depth, piece);
  }

  lemma Opening(op: string, inner: string, depth: int, piece: string)
    requires op == "all" || op == "any" || op == "not"
    ensures Pieces(op + ("(" + inner), depth, piece) == Pieces(inner, depth + 1, piece + op + "(")
  {
    hide Pieces;
    AtomPieces(op, "(" + inner, depth, piece);
    OnePiece('(', inner, depth, piece + op);
  }

  lemma Closing(op: string, inner: string, rest: string, depth: int, piece: string)
    ensures Pieces(")" + rest, depth + 1, piece + op + "(" + inner)
         == Pieces(rest, depth, piece + (op + ("(" + (inner + (")" + "")))))
  {
    hide Pieces;
    OnePiece(')', rest, depth + 1, piece + op + "(" + inner);
    assert piece + op + "(" + inner + ")" == piece + (op + ("(" + (inner + (")" + ""))));
  }

  lemma {:induction false} ArgsPieces(args: seq<Cfg>, first: bool, comma: bool, rest: string, depth: int, piece: string)
    requires (forall i :: 0 <= i < |args| ==> WellFormed(args[i])) && depth >= 1
    ensures Pieces(PrintArgs(args, first, comma, rest), depth, piece)
         == Pieces(rest, depth, piece + PrintArgs(args, first, comma, ""))
    decreases args, 0
  {
    hide Pieces, Print, WellFormed;
    if args == [] {
      var lead := if comma && !first then "," else "";
      LeadPieces(!comma || first, rest, depth, piece);
      assert PrintArgs(args, first, comma, "") == lead + "" == lead;
    } else {
      var after, alone := PrintArgs(args[1..], false, comma, rest), PrintArgs(args[1..], false, comma, "");
      var lead := if first then "" else ",";
      LeadPieces(first, Print(args[0], after), depth, piece);
      TreePieces(args[0], after, depth, piece + lead);
      ArgsPieces(args[1..], false, comma, rest, depth, piece + lead + Text(args[0]));
      PrintSplits(args[0], alone);
      assert piece + lead + Text(args[0]) + alone == piece + (lead + (Text(args[0]) + alone));
    }
  }

  lemma LeadPieces(first: bool, s: string, depth: int, piece: string)
    requires depth >= 1
    ensures var lead := if first then "" else ","; Pieces(lead + s, depth, piece) == Pieces(s, depth, piece + lead)
  {
    hide Pieces;
    assert "" + s == s && piece + "" == piece;
    OnePiece(',', s, depth, piece);
  }

  // ===== The check on printed trees

  /** The texts of the arguments, and an empty one after a closing comma. */
  function ArgTexts(args: seq<Cfg>, first: bool, comma: bool): seq<string> {
    if args == [] then (if comma && !first then [""] else [])
    else [Text(args[0])] + ArgTexts(args[1..], false, comma)
  }

  /** At depth zero the printed arguments are exactly the pieces. */
  lemma {:induction false} ArgsSplit(args: seq<Cfg>, first: bool, comma: bool, piece: string)
    requires forall i :: 0 <= i < |args| ==> WellFormed(args[i])
    ensures first && args != [] ==> Pieces(PrintArgs(args, true, comma, ""), 0, []) == ArgTexts(args, true, comma)
    ensures !first ==> Pieces(PrintArgs(args, false, comma, ""), 0, piece) == [piece] + ArgTexts(args, false, comma)
    decreases args
  {
    hide Pieces, Print, WellFormed;
    EndOfPieces(0, piece);
    if args == [] {
      if !first && comma {
        OnePiece(',', "", 0, piece);
        EndOfPieces(0, []);
        assert "," + "" == "," && "" + "" == "";
      } else {
        assert "" + "" == "";
      }
    } else {
      var after := PrintArgs(args[1..], false, comma, "");
      var printed := Print(args[0], after);
      TreePieces(args[0], after, 0, []);
      assert [] + Text(args[0]) == Text(args[0]);
      ArgsSplit(args[1..], false, comma, Text(args[0]));
      if first {
        assert "" + printed == printed;
      } else {
        OnePiece(',', printed, 0, piece);
      }
    }
  }

  lemma EndOfPieces(depth: int, piece: string)
    ensures Pieces("", depth, piece) == [piece]
  {
  }

  lemma {:induction false} TextsNonEmpty(args: seq<Cfg>, first: bool, comma: bool)
    requires forall i :: 0 <= i < |args| ==> WellFormed(args[i])
    ensures NonEmpty(ArgTexts(args, first, comma)) == Texts(args)
  {
    hide WellFormed;
    if args != [] {
      TextsNonEmpty(args[1..], false, comma);
      TextNonEmpty(args[0]);
      var ts := ArgTexts(args[1..], false, comma);
      assert ([Text(args[0])] + ts)[1..] == ts;
    } else {
      assert [""][1..] == [];
    }
  }

  function Texts(args: seq<Cfg>): (r: seq<string>)
    ensures |r| == |args|
    ensures forall i :: 0 <= i < |args| ==> r[i] == Text(args[i])
  {
    if args == [] then [] else [Text(args[0])] + Texts(args[1..])
  }

  lemma TextNonEmpty(t: Cfg)
    requires WellFormed(t)
    ensures Text(t) != []
  {
  }

  lemma SplitPrinted(args: seq<Cfg>, comma: bool)
    requires forall i :: 0 <= i < |args| ==> WellFormed(args[i])
    ensures SplitArguments(PrintArgs(args, true, comma, "")) == Texts(args)
  {
    hide WellFormed;
    if args == [] {
      EndOfPieces(0, []);
      assert [""][1..] == [];
    } else {
      ArgsSplit(args, true, comma, []);
      TextsNonEmpty(args, true, comma);
    }
  }

  predicate NoSpaces(s: string) {
    forall i :: 0 <= i < |s| ==> !IsSpace(s[i])
  }

  lemma {:induction false} SqueezeKeeps(s: string)
    requires NoSpaces(s)
    ensures Squeeze(s) == s
  {
    if s != [] {
      SqueezeKeeps(s[1..]);
    }
  }

  lemma {:induction false} PrintNoSpaces(t: Cfg, rest: string)
    requires WellFormed(t) && NoSpaces(rest)
    ensures NoSpaces(Print(t, rest))
    decreases t, 1
  {
    match t
    case Atom(name) =>
    case All(args, comma) => PrintArgsNoSpaces(args, true, comma, ")" + rest);
    case Any(args, comma) => PrintArgsNoSpaces(args, true, comma, ")" + rest);
    case Not(arg) => PrintNoSpaces(arg, ")" + rest);
  }

  lemma {:induction false} PrintArgsNoSpaces(args: seq<Cfg>, first: bool, comma: bool, rest: string)
    requires (forall i :: 0 <= i < |args| ==> WellFormed(args[i])) && NoSpaces(rest)
    ensures NoSpaces(PrintArgs(args, first, comma, rest))
    decreases args, 0
  {
    if args != [] {
      PrintArgsNoSpaces(args[1..], false, comma, rest);
      PrintNoSpaces(args[0], PrintArgs(args[1..], false, comma, rest));
    }
  }

  lemma WrappedText(op: string, prefix: string, inner: string)
    requires prefix == op + "("
    ensures var v := op + ("(" + (inner + (")" + ""))); Wrapped(v, prefix) && Inside(v, prefix) == inner
  {
    var v := op + ("(" + (inner + (")" + "")));
    assert v == prefix + inner + ")";
    assert v[..|prefix|] == prefix;
  }

  lemma OtherPrefix(value: string, prefix: string, i: nat)
    requires i < |value| && i < |prefix| && value[i] != prefix[i]
    ensures !Wrapped(value, prefix)
  {
  }

  /** What a printed list looks like to the prefix tests. */
  lemma ListText(t: Cfg)
    requires t.All? || t.Any?
    ensures var op := if t.All? then "all(" else "any(";
      && Wrapped(Text(t), op) && Inside(Text(t), op) == PrintArgs(t.args, true, t.comma, "")
      && !Wrapped(Text(t), "cfg(") && (t.Any? ==> !Wrapped(Text(t), "all("))
  {
    hide PrintArgs;
    PrintArgsSplits(t.args, true, t.comma, ")" + "");
    var inner := PrintArgs(t.args, true, t.comma, "");
    var op := if t.All? then "all" else "any";
    WrappedText(op, if t.All? then "all(" else "any(", inner);
    assert Text(t) == op + ("(" + (inner + (")" + "")));
    assert Text(t)[0] == 'a';
    OtherPrefix(Text(t), "cfg(", 0);
    if t.Any? {
      assert Text(t)[1] == 'n';
      OtherPrefix(Text(t), "all(", 1);
    }
  }

  predicate HasParenthesis(s: string) {
    exists i :: 0 <= i < |s| && s[i] == '('
  }

  lemma ListHasParenthesis(t: Cfg)
    requires !t.Atom?
    ensures HasParenthesis(Text(t))
  {
    assert Text(t)[3] == '(';
  }

  lemma AtomNotWrapped(name: string)
    requires AtomName(name)
    ensures !Wrapped(name, "cfg(") && !Wrapped(name, "all(") && !Wrapped(name, "any(")
  {
    assert "cfg("[3] == '(' && "all("[3] == '(' && "any("[3] == '(';
  }

  lemma NotText(t: Cfg)
    requires t.Not?
    ensures !Wrapped(Text(t), "cfg(") && !Wrapped(Text(t), "all(") && !Wrapped(Text(t), "any(")
  {
    assert Text(t)[0] == 'n' && "cfg("[0] == 'c' && "all("[0] == 'a' && "any("[0] == 'a';
  }

  lemma AllUnfolds(e: string, required: set<string>, children: seq<string>)
    requires Unwrapped(e) !in required && Wrapped(Unwrapped(e), "all(")
    requires children == SplitArguments(Inside(Unwrapped(e), "all("))
    ensures ImpliesAny(e, required) <==> exists i :: 0 <= i < |children| && ImpliesAny(children[i], required)
  {
    hide Unwrapped, SplitArguments, Inside;
  }

  lemma AnyUnfolds(e: string, required: set<string>, children: seq<string>)
    requires Unwrapped(e) !in required && !Wrapped(Unwrapped(e), "all(") && Wrapped(Unwrapped(e), "any(")
    requires children == SplitArguments(Inside(Unwrapped(e), "any("))
    ensures ImpliesAny(e, required) <==>
      children != [] && forall i :: 0 <= i < |children| ==> ImpliesAny(children[i], required)
  {
    hide Unwrapped, SplitArguments, Inside;
  }

  lemma OtherwiseFalse(e: string, required: set<string>)
    requires !Wrapped(Unwrapped(e), "all(") && !Wrapped(Unwrapped(e), "any(")
    ensures ImpliesAny(e, required) <==> Unwrapped(e) in required
  {
    hide Unwrapped, SplitArguments;
  }

  /** On the text of a well-formed tree the string check is the tree recursion. */
  lemma {:induction false} TextAgrees(t: Cfg, required: set<string>)
    requires WellFormed(t) && forall a :: a in required ==> AtomName(a)
    ensures ImpliesAny(Text(t), required) == TreeImplies(t, required)
  {
    hide Print, ImpliesAny, Unwrapped, SplitArguments, AtomName;
    TextUnwrapped(t);
    if !t.Atom? {
      ListHasParenthesis(t);
      NotRequired(Text(t), required);
    }
    match t
    case Atom(name) =>
      AtomText(name);
      AtomNotWrapped(name);
      OtherwiseFalse(name, required);
    case Not(arg) =>
      NotText(t);
      OtherwiseFalse(Text(t), required);
    case All(args, comma) =>
      ListText(t);
      SplitPrinted(args, comma);
      AllUnfolds(Text(t), required, Texts(args));
      forall i | 0 <= i < |args|
        ensures ImpliesAny(Texts(args)[i], required) == TreeImplies(args[i], required)
      {
        TextAgrees(args[i], required);
      }
    case Any(args, comma) =>
      ListText(t);
      SplitPrinted(args, comma);
      AnyUnfolds(Text(t), required, Texts(args));
      forall i | 0 <= i < |args|
        ensures ImpliesAny(Texts(args)[i], required) == TreeImplies(args[i], required)
      {
        TextAgrees(args[i], required);
      }
  }

  lemma NotRequired(s: string, required: set<string>)
    requires HasParenthesis(s) && forall a :: a in required ==> AtomName(a)
    ensures s !in required
  {
    assert !AtomName(s);
  }

  /** The answer depends only on the text without blanks and outer cfg(...). */
  lemma SameValue(e: string, f: string, required: set<string>)
    requires Unwrapped(e) == Unwrapped(f)
    ensures ImpliesAny(e, required) == ImpliesAny(f, required)
  {
    hide Unwrapped, SplitArguments;
  }

  lemma TextUnwrapped(t: Cfg)
    requires WellFormed(t)
    ensures Unwrapped(Text(t)) == Text(t)
  {
    hide Print, Squeeze;
    PrintNoSpaces(t, "");
    SqueezeKeeps(Text(t));
    match t
    case Atom(name) => AtomText(name); AtomNotWrapped(name);
    case Not(_) => NotText(t);
    case All(_, _) => ListText(t);
    case Any(_, _) => ListText(t);
  }

  lemma AtomText(name: string)
    ensures Text(Atom(name)) == name
  {
    assert name + "" == name;
  }

  predicate Writes(expression: string, t: Cfg) {
    Squeeze(expression) == Text(t) || Squeeze(expression) == "cfg(" + Text(t) + ")"
  }

  /**
   However an expression is spaced, and with or without its cfg(...) around it, the string check answers
   as the tree recursion does; and a true answer means every valuation satisfying it sets a required atom.
   */
  lemma CheckAgrees(expression: string, t: Cfg, required: set<string>)
    requires WellFormed(t) && Writes(expression, t) && forall a :: a in required ==> AtomName(a)
    ensures ImpliesAny(expression, required) == TreeImplies(t, required)
    ensures ImpliesAny(expression, required) ==> forall on :: Holds(t, on) ==> exists a :: a in required && a in on
  {
    hide Print, Squeeze, ImpliesAny, WellFormed, Holds, TreeImplies;
    TextUnwrapped(t);
    if Squeeze(expression) != Text(t) {
      var v := "cfg(" + Text(t) + ")";
      assert v[..4] == "cfg(" && v[4..|v| - 1] == Text(t);
    } else {
      NoOuterCfg(t);
    }
    SameValue(expression, Text(t), required);
    TextAgrees(t, required);
    if TreeImplies(t, required) {
      forall on | Holds(t, on)
        ensures exists a :: a in required && a in on
      {
        ImplicationSound(t, required, on);
      }
    }
  }

  lemma NoOuterCfg(t: Cfg)
    requires WellFormed(t)
    ensures !Wrapped(Text(t), "cfg(")
  {
    hide Print;
    match t
    case Atom(name) => AtomText(name); AtomNotWrapped(name);
    case Not(_) => NotText(t);
    case All(_, _) => ListText(t);
    case Any(_, _) => ListText(t);
  }
}
