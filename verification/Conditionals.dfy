/** Conditional directives: the line loops of ifdef and ifelse against the evaluation of a tree of blocks.  */
module Conditionals {
  import opened Wrappers

  // ---- lines ----

  datatype Kind = Else | EndIf | Elif | IfDef | IfNDef | If | Define | Undef | Include | Text

  /** What a line begins with, tested in the order of the source. */
  function KindOf(line: string): Kind {
    if "#else" <= line then Else
    else if "#endif" <= line then EndIf
    else if "#elif" <= line then Elif
    else if "#define" <= line then Define
    else if "#undef" <= line then Undef
    else if "#ifdef" <= line then IfDef
    else if "#ifndef" <= line then IfNDef
    else if "#include" <= line then Include
    else if "#if" <= line then If
    else Text
  }

  predicate Opens(line: string) { var k := KindOf(line); k == IfDef || k == IfNDef || k == If }

  /** What the directives do to the macro table `E`: the results hold whatever these functions are. */
  datatype Ops<!E> = Ops(
    defined: (E, string) -> bool,
    test: (E, string) -> bool,
    define: (E, string) -> E,
    undef: (E, string) -> E,
    expand: (E, string) -> (E, seq<string>))

  /** The lines still to be read, the lines written, the table, and how many opening directives were
      passed over instead of being obeyed. */
  datatype State<E> = State(rest: seq<string>, out: seq<string>, env: E, missed: nat)

  /** Blank lines are not written. */
  function Emit(line: string): seq<string> { if line != "" && line[0] == '\n' then [] else [line] }

  function Pass<E>(s: State<E>): State<E>
    requires s.rest != []
  {
    s.(rest := s.rest[1..], missed := s.missed + if Opens(s.rest[0]) then 1 else 0)
  }

  function Eat<E>(s: State<E>): State<E>
    requires s.rest != []
  {
    s.(rest := s.rest[1..])
  }

  /** A line of a taken branch in ifelse: everything but a definition is written. */
  function FlatLine<E>(ops: Ops<E>, s: State<E>): State<E>
    requires s.rest != []
  {
    var line := s.rest[0];
    if KindOf(line) == Define then Eat(s).(env := ops.define(s.env, line))
    else Pass(s).(out := s.out + Emit(line))
  }

  /** The function ifelse: inside a branch that is taken or not, or after the one that was taken. */
  function IfElse<E>(ops: Ops<E>, s: State<E>, cond: bool, done: bool): (r: State<E>)
    ensures |r.rest| <= |s.rest|
    decreases |s.rest|
  {
    if s.rest == [] then s
    else
      var line := s.rest[0];
      if KindOf(line) == EndIf then Eat(s)
      else if done then IfElse(ops, Pass(s), cond, done)
      else if cond then
        if KindOf(line) == Else || KindOf(line) == Elif then IfElse(ops, Eat(s), true, true)
        else IfElse(ops, FlatLine(ops, s), cond, done)
      else
        if KindOf(line) == Else then IfElse(ops, Eat(s), true, false)
        else if KindOf(line) == Elif then IfElse(ops, Eat(s), ops.test(s.env, line), false)
        else IfElse(ops, Pass(s), cond, done)
  }

  /** A line of a taken branch in ifdef that is no conditional. */
  function PlainLine<E>(ops: Ops<E>, env: E, line: string): (E, seq<string>) {
    if KindOf(line) == Define then (ops.define(env, line), [])
    else if KindOf(line) == Undef then (ops.undef(env, line), [])
    else if KindOf(line) == Include then ops.expand(env, line)
    else (env, Emit(line))
  }

  /** The branch that an opening line takes. */
  function Taken<E>(ops: Ops<E>, env: E, line: string): bool
    requires Opens(line)
  {
    if KindOf(line) == IfDef then ops.defined(env, line)
    else if KindOf(line) == IfNDef then !ops.defined(env, line)
    else ops.test(env, line)
  }

  /** The function ifdef. */
  function IfDefRun<E>(ops: Ops<E>, s: State<E>, cond: bool): (r: State<E>)
    ensures |r.rest| <= |s.rest|
    decreases |s.rest|
  {
    if s.rest == [] then s
    else
      var line := s.rest[0];
      if KindOf(line) == EndIf then Eat(s)
      else if KindOf(line) == Else then IfDefRun(ops, Eat(s), !cond)
      else if !cond then IfDefRun(ops, Pass(s), cond)
      else if Opens(line) then
        var inner := if KindOf(line) == If then IfElse(ops, Eat(s), Taken(ops, s.env, line), false)
                     else IfDefRun(ops, Eat(s), Taken(ops, s.env, line));
        IfDefRun(ops, inner, cond)
      else
        var (env, out) := PlainLine(ops, s.env, line);
        IfDefRun(ops, Eat(s).(env := env, out := s.out + out), cond)
  }

  /** One line of each function. */
  lemma IfElseLine<E>(ops: Ops<E>, s: State<E>, cond: bool, done: bool)
    ensures IfElse(ops, s, cond, done) ==
      if s.rest == [] then s
      else if KindOf(s.rest[0]) == EndIf then Eat(s)
      else if done then IfElse(ops, Pass(s), cond, done)
      else if KindOf(s.rest[0]) == Else then IfElse(ops, Eat(s), true, cond)
      else if KindOf(s.rest[0]) == Elif then
        if cond then IfElse(ops, Eat(s), true, true) else IfElse(ops, Eat(s), ops.test(s.env, s.rest[0]), false)
      else if cond then IfElse(ops, FlatLine(ops, s), cond, done)
      else IfElse(ops, Pass(s), cond, done)
  {
  }

  lemma FlatLineCases<E>(ops: Ops<E>, s: State<E>)
    requires s.rest != []
    ensures FlatLine(ops, s) ==
      if KindOf(s.rest[0]) == Define then Eat(s).(env := ops.define(s.env, s.rest[0]))
      else Pass(s).(out := s.out + Emit(s.rest[0]))
  {
  }

  lemma IfDefLine<E>(ops: Ops<E>, s: State<E>, cond: bool)
    ensures IfDefRun(ops, s, cond) ==
      if s.rest == [] then s
      else if KindOf(s.rest[0]) == EndIf then Eat(s)
      else if KindOf(s.rest[0]) == Else then IfDefRun(ops, Eat(s), !cond)
      else if !cond then IfDefRun(ops, Pass(s), cond)
      else if Opens(s.rest[0]) then IfDefRun(ops, Inner(ops, s), cond)
      else IfDefRun(ops, PlainState(ops, s), cond)
  {
  }

  /** After the block that the first line opens. */
  function Inner<E>(ops: Ops<E>, s: State<E>): (r: State<E>)
    requires s.rest != [] && Opens(s.rest[0])
    ensures |r.rest| < |s.rest|
  {
    if KindOf(s.rest[0]) == If then IfElse(ops, Eat(s), Taken(ops, s.env, s.rest[0]), false)
    else IfDefRun(ops, Eat(s), Taken(ops, s.env, s.rest[0]))
  }

  function PlainState<E>(ops: Ops<E>, s: State<E>): State<E>
    requires s.rest != []
  {
    var (env, out) := PlainLine(ops, s.env, s.rest[0]);
    Eat(s).(env := env, out := s.out + out)
  }

  // ---- the loops of the source ----

  class Preprocessor<E(0)> {
    const lines: seq<string>
    var at: nat
    var out: seq<string>
    var env: E
    ghost var missed: nat

    constructor (lines: seq<string>, env: E)
      ensures this.lines == lines && Valid() && View() == State(lines, [], env, 0)
    {
      this.lines, at, out, this.env, missed := lines, 0, [], env, 0;
      assert lines[0..] == lines;
    }

    ghost predicate Valid()
      reads this
    {
      at <= |lines|
    }

    ghost function View(): State<E>
      reads this
      requires Valid()
    {
      State(lines[at..], out, env, missed)
    }

    method GetLine() returns (line: string)
      requires Valid() && at < |lines|
      modifies `at
      ensures Valid() && old(View()).rest != [] && line == old(View()).rest[0] && View() == Eat(old(View()))
    {
      line := lines[at];
      at := at + 1;
    }

    method RunIfElse(ops: Ops<E>, cond: bool, done: bool)
      requires Valid()
      modifies this
      ensures Valid() && View() == IfElse(ops, old(View()), cond, done)
      decreases |lines| - at
    {
      hide IfElse, KindOf, Opens, FlatLine;
      IfElseLine(ops, View(), cond, done);
      while at < |lines|
        invariant Valid() && at >= old(at)
        invariant IfElse(ops, View(), cond, done) == IfElse(ops, old(View()), cond, done)
        decreases |lines| - at
      {
        ghost var s := View();
        IfElseLine(ops, s, cond, done);
        FlatLineCases(ops, s);
        var line := GetLine();
        if KindOf(line) == EndIf {
          return;
        }
        if !done && (KindOf(line) == Else || KindOf(line) == Elif) {
          if cond {
            RunIfElse(ops, true, true);
          } else {
            RunIfElse(ops, KindOf(line) == Else || ops.test(env, line), false);
          }
          return;
        }
        if !done && cond && KindOf(line) == Define {
          env := ops.define(env, line);
        } else {
          if !done && cond {
            out := out + Emit(line);
          }
          missed := missed + if Opens(line) then 1 else 0;
        }
      }
      assert lines[at..] == [];
      IfElseLine(ops, View(), cond, done);
    }

    method RunIfDef(ops: Ops<E>, cond: bool)
      requires Valid()
      modifies this
      ensures Valid() && View() == IfDefRun(ops, old(View()), cond)
      decreases |lines| - at
    {
      hide IfDefRun, IfElse, KindOf;
      while at < |lines|
        invariant Valid() && at >= old(at)
        invariant IfDefRun(ops, View(), cond) == IfDefRun(ops, old(View()), cond)
        decreases |lines| - at
      {
        ghost var s := View();
        IfDefLine(ops, s, cond);
        var line := GetLine();
        if KindOf(line) == EndIf {
          return;
        }
        if KindOf(line) == Else {
          RunIfDef(ops, !cond);
          return;
        }
        if !cond {
          missed := missed + if Opens(line) then 1 else 0;
        } else if KindOf(line) == If {
          RunIfElse(ops, ops.test(env, line), false);
        } else if Opens(line) {
          RunIfDef(ops, Taken(ops, env, line));
        } else {
          var (e, o) := PlainLine(ops, env, line);
          env, out := e, out + o;
        }
      }
      assert lines[at..] == [];
      IfDefLine(ops, View(), cond);
    }
  }

  // ---- trees of blocks ----

  /** Lines, blocks of #ifdef or #ifndef with an optional #else, and chains of #if, #elif and #else. */
  datatype Item =
    | Line(text: string)
    | Block(open: string, yes: Items, otherwise: Option<Branch>, close: string)
    | Chain(open: string, first: Items, arms: Arms, close: string)

  datatype Items = Nil | Cons(item: Item, rest: Items)

  datatype Branch = Branch(line: string, body: Items)

  /** The further branches of a chain; each begins with #elif or #else. */
  datatype Arms = End | Arm(line: string, body: Items, next: Arms)

  function Print(t: Items): seq<string> {
    match t
    case Nil => []
    case Cons(i, rest) => PrintItem(i) + Print(rest)
  }

  function PrintItem(i: Item): seq<string> {
    match i
    case Line(text) => [text]
    case Block(open, yes, None, close) => [open] + (Print(yes) + [close])
    case Block(open, yes, Some(b), close) => [open] + (Print(yes) + ([b.line] + (Print(b.body) + [close])))
    case Chain(open, first, arms, close) => [open] + (Print(first) + (PrintArms(arms) + [close]))
  }

  function PrintArms(a: Arms): seq<string> {
    match a
    case End => []
    case Arm(line, body, next) => [line] + (Print(body) + PrintArms(next))
  }

  predicate WellFormed(t: Items) {
    match t
    case Nil => true
    case Cons(i, rest) => WellFormedItem(i) && WellFormed(rest)
  }

  predicate WellFormedItem(i: Item) {
    match i
    case Line(text) =>
      var k := KindOf(text); k == Text || k == Define || k == Undef || k == Include
    case Block(open, yes, otherwise, close) =>
      && (KindOf(open) == IfDef || KindOf(open) == IfNDef) && KindOf(close) == EndIf && WellFormed(yes)
      && (otherwise.Some? ==> KindOf(otherwise.value.line) == Else && WellFormed(otherwise.value.body))
    case Chain(open, first, arms, close) =>
      && KindOf(open) == If && KindOf(close) == EndIf && WellFormed(first) && WellFormedArms(arms)
  }

  /** An #else comes last. */
  predicate WellFormedArms(a: Arms) {
    match a
    case End => true
    case Arm(line, body, next) =>
      (KindOf(line) == Elif || (KindOf(line) == Else && next == End)) && WellFormed(body) && WellFormedArms(next)
  }

  /** No conditional anywhere. */
  predicate Flat(t: Items) {
    match t
    case Nil => true
    case Cons(i, rest) => i.Line? && Flat(rest)
  }

  predicate FlatArms(a: Arms) { a == End || (Flat(a.body) && FlatArms(a.next)) }

  // ---- evaluation ----

  /** What lines inside a chain do: definitions are obeyed, everything else is written. */
  function EvalFlat<E>(ops: Ops<E>, env: E, t: Items): (E, seq<string>) {
    match t
    case Nil => (env, [])
    case Cons(i, rest) =>
      if i.Line? && KindOf(i.text) == Define then EvalFlat(ops, ops.define(env, i.text), rest)
      else
        var (e, out) := EvalFlat(ops, env, rest);
        (e, (if i.Line? then Emit(i.text) else []) + out)
  }

  /** The first arm whose test holds. */
  function EvalArms<E>(ops: Ops<E>, env: E, a: Arms): (E, seq<string>) {
    match a
    case End => (env, [])
    case Arm(line, body, next) =>
      if KindOf(line) == Else || ops.test(env, line) then EvalFlat(ops, env, body) else EvalArms(ops, env, next)
  }

  function Eval<E>(ops: Ops<E>, env: E, t: Items): (E, seq<string>) {
    match t
    case Nil => (env, [])
    case Cons(i, rest) =>
      var (e1, out1) := EvalItem(ops, env, i);
      var (e2, out2) := Eval(ops, e1, rest);
      (e2, out1 + out2)
  }

  function EvalItem<E>(ops: Ops<E>, env: E, i: Item): (E, seq<string>) {
    match i
    case Line(text) => PlainLine(ops, env, text)
    case Block(open, yes, otherwise, close) =>
      if !Opens(open) then (env, [])
      else if Taken(ops, env, open) then Eval(ops, env, yes)
      else if otherwise.Some? then Eval(ops, env, otherwise.value.body)
      else (env, [])
    case Chain(open, first, arms, close) =>
      if Opens(open) && Taken(ops, env, open) then EvalFlat(ops, env, first) else EvalArms(ops, env, arms)
  }

  /** Conditionals occur only where branches are taken, and not inside chains. */
  predicate Clean<E>(ops: Ops<E>, env: E, t: Items) {
    match t
    case Nil => true
    case Cons(i, rest) => CleanItem(ops, env, i) && Clean(ops, EvalItem(ops, env, i).0, rest)
  }

  predicate CleanItem<E>(ops: Ops<E>, env: E, i: Item) {
    match i
    case Line(_) => true
    case Block(open, yes, otherwise, close) =>
      if !Opens(open) then false
      else if Taken(ops, env, open) then
        Clean(ops, env, yes) && (otherwise.Some? ==> Flat(otherwise.value.body))
      else
        Flat(yes) && (otherwise.Some? ==> Clean(ops, env, otherwise.value.body))
    case Chain(_, first, arms, _) => Flat(first) && FlatArms(arms)
  }
}
