/** What the conditional loops of Conditionals do to the printed form of a tree: exactly its evaluation, if and
    only if no conditional lies where only flat lines are expected. */
module ConditionalMeaning {
  import opened Wrappers
  import opened Conditionals

  // ---- one line at a time ----

  predicate FlatText(line: string) {
    var k := KindOf(line);
    k == Text || k == Define || k == Undef || k == Include
  }

  lemma NotOpening(line: string)
    requires FlatText(line)
    ensures !Opens(line) && KindOf(line) != EndIf && KindOf(line) != Else && KindOf(line) != Elif
  {
  }

  /** The state with a line put in front. */
  function Put<E>(line: string, s: State<E>): State<E> { s.(rest := [line] + s.rest) }

  function PutAll<E>(lines: seq<string>, s: State<E>): State<E> { s.(rest := lines + s.rest) }

  lemma PutLine<E>(line: string, s: State<E>)
    ensures Put(line, s).rest != [] && Put(line, s).rest[0] == line && Eat(Put(line, s)) == s
    ensures Pass(Put(line, s)) == s.(missed := s.missed + if Opens(line) then 1 else 0)
  {
    assert Put(line, s).rest[1..] == s.rest;
  }

  lemma PutCons<E>(line: string, lines: seq<string>, s: State<E>)
    ensures PutAll([line] + lines, s) == Put(line, PutAll(lines, s))
  {
    assert ([line] + lines) + s.rest == [line] + (lines + s.rest);
  }

  lemma PutJoin<E>(a: seq<string>, b: seq<string>, s: State<E>)
    ensures PutAll(a + b, s) == PutAll(a, PutAll(b, s))
  {
    assert (a + b) + s.rest == a + (b + s.rest);
  }

  lemma PutNone<E>(s: State<E>)
    ensures PutAll([], s) == s
  {
    assert [] + s.rest == s.rest;
  }

  /** The state after output and a change of table. */
  function Did<E>(s: State<E>, done: (E, seq<string>)): State<E> { s.(env := done.0, out := s.out + done.1) }

  lemma DidTwice<E>(s: State<E>, a: (E, seq<string>), b: (E, seq<string>))
    ensures Did(Did(s, a), b) == Did(s, (b.0, a.1 + b.1))
  {
    assert (s.out + a.1) + b.1 == s.out + (a.1 + b.1);
  }

  lemma DidNothing<E>(s: State<E>)
    ensures Did(s, (s.env, [])) == s
  {
    assert s.out + [] == s.out;
  }

  // ---- lines without conditionals ----

  /** ifdef passes over them when its branch is not taken. */
  lemma {:induction false} SkipIfDef<E>(ops: Ops<E>, t: Items, s: State<E>)
    requires Flat(t) && WellFormed(t)
    ensures IfDefRun(ops, PutAll(Print(t), s), false) == IfDefRun(ops, s, false)
  {
    hide IfDefRun, Put, PutAll, KindOf, Opens, Pass;
    if t.Nil? {
      PutNone(s);
    } else {
      var line := t.item.text;
      NotOpening(line);
      PutCons(line, Print(t.rest), s);
      PutLine(line, PutAll(Print(t.rest), s));
      IfDefLine(ops, PutAll(Print(t), s), false);
      SkipIfDef(ops, t.rest, s);
    }
  }

  /** ifelse passes over them when its branch is not taken or another one was. */
  lemma {:induction false} SkipIfElse<E>(ops: Ops<E>, t: Items, s: State<E>, cond: bool, done: bool)
    requires Flat(t) && WellFormed(t) && (done || !cond)
    ensures IfElse(ops, PutAll(Print(t), s), cond, done) == IfElse(ops, s, cond, done)
  {
    hide IfElse, Put, PutAll, KindOf, Opens, Pass, FlatLine;
    if t.Nil? {
      PutNone(s);
    } else {
      var line := t.item.text;
      NotOpening(line);
      PutCons(line, Print(t.rest), s);
      PutLine(line, PutAll(Print(t.rest), s));
      IfElseLine(ops, PutAll(Print(t), s), cond, done);
      SkipIfElse(ops, t.rest, s, cond, done);
    }
  }

  lemma FlatStep<E>(ops: Ops<E>, line: string, s: State<E>)
    requires FlatText(line)
    ensures FlatLine(ops, Put(line, s)) ==
      if KindOf(line) == Define then s.(env := ops.define(s.env, line)) else s.(out := s.out + Emit(line))
  {
    hide KindOf, Emit;
    NotOpening(line);
    PutLine(line, s);
  }

  /** ifelse writes them when its branch is taken. */
  lemma {:induction false} TakeIfElse<E>(ops: Ops<E>, t: Items, s: State<E>)
    requires Flat(t) && WellFormed(t)
    ensures IfElse(ops, PutAll(Print(t), s), true, false) == IfElse(ops, Did(s, EvalFlat(ops, s.env, t)), true, false)
    decreases t
  {
    hide IfElse, Put, PutAll, KindOf, Opens, Pass, FlatLine, Emit, Did;
    if t.Nil? {
      PutNone(s);
      DidNothing(s);
    } else {
      var line := t.item.text;
      NotOpening(line);
      var later := PutAll(Print(t.rest), s);
      PutCons(line, Print(t.rest), s);
      PutLine(line, later);
      IfElseLine(ops, Put(line, later), true, false);
      FlatStep(ops, line, later);
      FlatStepMoves(ops, t, s);
      var after := if KindOf(line) == Define then (ops.define(s.env, line), []) else (s.env, Emit(line));
      TakeIfElse(ops, t.rest, Did(s, after));
    }
  }

  lemma FlatStepMoves<E>(ops: Ops<E>, t: Items, s: State<E>)
    requires t.Cons? && t.item.Line? && FlatText(t.item.text)
    ensures var line := t.item.text;
            var after := if KindOf(line) == Define then (ops.define(s.env, line), []) else (s.env, Emit(line));
            && FlatLine(ops, Put(line, PutAll(Print(t.rest), s))) == PutAll(Print(t.rest), Did(s, after))
            && Did(s, after).env == after.0
            && Did(Did(s, after), EvalFlat(ops, after.0, t.rest)) == Did(s, EvalFlat(ops, s.env, t))
  {
    hide KindOf, Emit, EvalFlat;
    var line := t.item.text;
    FlatStep(ops, line, PutAll(Print(t.rest), s));
    var after := if KindOf(line) == Define then (ops.define(s.env, line), []) else (s.env, Emit(line));
    assert s.out + [] == s.out;
    DidTwice(s, after, EvalFlat(ops, after.0, t.rest));
    EvalFlatLine(ops, s.env, t);
  }

  lemma EvalFlatLine<E>(ops: Ops<E>, env: E, t: Items)
    requires t.Cons? && t.item.Line?
    ensures EvalFlat(ops, env, t) ==
      if KindOf(t.item.text) == Define then
        (EvalFlat(ops, ops.define(env, t.item.text), t.rest).0,
         [] + EvalFlat(ops, ops.define(env, t.item.text), t.rest).1)
      else (EvalFlat(ops, env, t.rest).0, Emit(t.item.text) + EvalFlat(ops, env, t.rest).1)
  {
    hide KindOf, Emit;
    assert [] + EvalFlat(ops, ops.define(env, t.item.text), t.rest).1 == EvalFlat(ops, ops.define(env, t.item.text),
        t.rest).1;
  }

  // ---- chains ----

  /** After a branch was taken, everything up to #endif is dropped. */
  lemma {:induction false} DropArms<E>(ops: Ops<E>, a: Arms, close: string, s: State<E>, cond: bool)
    requires FlatArms(a) && WellFormedArms(a) && KindOf(close) == EndIf
    ensures IfElse(ops, PutAll(PrintArms(a) + [close], s), cond, true) == s
    decreases a
  {
    hide IfElse, Put, PutAll, KindOf, Pass, FlatLine;
    if a.End? {
      assert [] + [close] == [close] + [];
      PutCons(close, [], s);
      PutNone(s);
      PutLine(close, s);
      IfElseLine(ops, Put(close, s), cond, true);
    } else {
      ArmText(a, close, s);
      var later := PutAll(Print(a.body), PutAll(PrintArms(a.next) + [close], s));
      PutLine(a.line, later);
      IfElseLine(ops, Put(a.line, later), cond, true);
      SkipIfElse(ops, a.body, PutAll(PrintArms(a.next) + [close], s), cond, true);
      DropArms(ops, a.next, close, s, cond);
    }
  }

  lemma ArmText<E>(a: Arms, close: string, s: State<E>)
    requires a.Arm?
    ensures PutAll(PrintArms(a) + [close], s) ==
            Put(a.line, PutAll(Print(a.body), PutAll(PrintArms(a.next) + [close], s)))
  {
    assert PrintArms(a) + [close] == [a.line] + (Print(a.body) + (PrintArms(a.next) + [close]));
    PutCons(a.line, Print(a.body) + (PrintArms(a.next) + [close]), s);
    PutJoin(Print(a.body), PrintArms(a.next) + [close], s);
  }

  lemma {:induction false} LeaveTaken<E>(ops: Ops<E>, a: Arms, close: string, s: State<E>)
    requires FlatArms(a) && WellFormedArms(a) && KindOf(close) == EndIf
    ensures IfElse(ops, PutAll(PrintArms(a) + [close], s), true, false) == s
  {
    hide IfElse, Put, PutAll, KindOf, Pass, FlatLine;
    if a.End? {
      assert [] + [close] == [close] + [];
      PutCons(close, [], s);
      PutNone(s);
      PutLine(close, s);
      IfElseLine(ops, Put(close, s), true, false);
    } else {
      ArmText(a, close, s);
      var later := PutAll(Print(a.body), PutAll(PrintArms(a.next) + [close], s));
      PutLine(a.line, later);
      IfElseLine(ops, Put(a.line, later), true, false);
      SkipIfElse(ops, a.body, PutAll(PrintArms(a.next) + [close], s), true, true);
      DropArms(ops, a.next, close, s, true);
    }
  }

  /** A branch that is taken, and what follows it. */
  lemma TakenArm<E>(ops: Ops<E>, body: Items, a: Arms, close: string, s: State<E>)
    requires Flat(body) && WellFormed(body) && FlatArms(a) && WellFormedArms(a) && KindOf(close) == EndIf
    ensures IfElse(ops, PutAll(Print(body), PutAll(PrintArms(a) + [close], s)), true, false) ==
            Did(s, EvalFlat(ops, s.env, body))
  {
    hide IfElse, KindOf, EvalFlat;
    var tail := PutAll(PrintArms(a) + [close], s);
    TakeIfElse(ops, body, tail);
    assert Did(tail, EvalFlat(ops, s.env, body)) == PutAll(PrintArms(a) + [close], Did(s, EvalFlat(ops, s.env, body)));
    LeaveTaken(ops, a, close, Did(s, EvalFlat(ops, s.env, body)));
  }

  /** Before any branch was taken: the first arm whose test holds is evaluated. */
  lemma {:induction false} ChooseArm<E>(ops: Ops<E>, a: Arms, close: string, s: State<E>)
    requires FlatArms(a) && WellFormedArms(a) && KindOf(close) == EndIf
    ensures IfElse(ops, PutAll(PrintArms(a) + [close], s), false, false) == Did(s, EvalArms(ops, s.env, a))
    decreases a
  {
    hide IfElse, Put, PutAll, KindOf, Pass, FlatLine, EvalFlat, Did;
    if a.End? {
      assert [] + [close] == [close] + [];
      PutCons(close, [], s);
      PutNone(s);
      PutLine(close, s);
      IfElseLine(ops, Put(close, s), false, false);
      DidNothing(s);
    } else {
      ArmText(a, close, s);
      var rest := PutAll(PrintArms(a.next) + [close], s);
      var later := PutAll(Print(a.body), rest);
      PutLine(a.line, later);
      PutKeeps(Print(a.body), rest);
      PutKeeps(PrintArms(a.next) + [close], s);
      PutKeepsOne(a.line, later);
      IfElseLine(ops, Put(a.line, later), false, false);
      if KindOf(a.line) == Else || ops.test(s.env, a.line) {
        TakenArm(ops, a.body, a.next, close, s);
      } else {
        SkipIfElse(ops, a.body, rest, false, false);
        ChooseArm(ops, a.next, close, s);
      }
    }
  }

  lemma PutKeeps<E>(lines: seq<string>, s: State<E>)
    ensures PutAll(lines, s).env == s.env
  {
  }

  lemma PutKeepsOne<E>(line: string, s: State<E>)
    ensures Put(line, s).env == s.env
  {
  }

  /** The whole chain, from the line after #if. */
  lemma ChainRun<E>(ops: Ops<E>, c: Item, s: State<E>)
    requires c.Chain? && WellFormedItem(c) && Flat(c.first) && FlatArms(c.arms)
    ensures Inner(ops, PutAll(PrintItem(c), s)) == Did(s, EvalItem(ops, s.env, c))
  {
    hide IfElse, IfDefRun, Put, PutAll, KindOf, Pass, EvalFlat, EvalArms, Did, Taken;
    assert Opens(c.open);
    var rest := PutAll(PrintArms(c.arms) + [c.close], s);
    var later := PutAll(Print(c.first), rest);
    PutCons(c.open, Print(c.first) + (PrintArms(c.arms) + [c.close]), s);
    PutJoin(Print(c.first), PrintArms(c.arms) + [c.close], s);
    assert PutAll(PrintItem(c), s) == Put(c.open, later);
    PutLine(c.open, later);
    PutKeeps(Print(c.first), rest);
    PutKeeps(PrintArms(c.arms) + [c.close], s);
    PutKeepsOne(c.open, later);
    if Taken(ops, s.env, c.open) {
      TakenArm(ops, c.first, c.arms, c.close, s);
    } else {
      SkipIfElse(ops, c.first, rest, false, false);
      ChooseArm(ops, c.arms, c.close, s);
    }
  }

  /** What a line is, by what it begins with. */
  lemma KindExactly(line: string)
    ensures KindOf(line) == Else <==> "#else" <= line
    ensures KindOf(line) == EndIf <==> "#endif" <= line
    ensures KindOf(line) == Elif <==> "#elif" <= line
    ensures KindOf(line) == Define <==> "#define" <= line
    ensures KindOf(line) == Undef <==> "#undef" <= line
    ensures KindOf(line) == Include <==> "#include" <= line
    ensures KindOf(line) == IfDef <==> "#ifdef" <= line
    ensures KindOf(line) == IfNDef <==> "#ifndef" <= line
    ensures Opens(line) <==> "#if" <= line
    ensures KindOf(line) == If <==> "#if" <= line && !("#ifdef" <= line) && !("#ifndef" <= line)
  {
    assert "#else" <= line ==> line[1] == 'e' && line[2] == 'l' && line[3] == 's';
    assert "#elif" <= line ==> line[1] == 'e' && line[2] == 'l' && line[3] == 'i';
    assert "#endif" <= line ==> line[1] == 'e' && line[2] == 'n';
    assert "#define" <= line ==> line[1] == 'd';
    assert "#undef" <= line ==> line[1] == 'u';
    assert "#include" <= line ==> line[1] == 'i' && line[2] == 'n';
    assert "#ifdef" <= line ==> line[..3] == "#if" && line[3] == 'd';
    assert "#ifndef" <= line ==> line[..3] == "#if" && line[3] == 'n';
    assert "#if" <= line ==> line[1] == 'i' && line[2] == 'f';
  }

  lemma WrittenLine(line: string)
    ensures Emit(line) == if "\n" <= line then [] else [line]
  {
  }

  /** The lines that are written: neither definitions nor blank. */
  function Written(lines: seq<string>): seq<string> {
    if lines == [] then []
    else (if "#define" <= lines[0] || "\n" <= lines[0] then [] else [lines[0]]) + Written(lines[1..])
  }

  function Defined<E>(ops: Ops<E>, env: E, lines: seq<string>): E
    decreases |lines|
  {
    if lines == [] then env
    else Defined(ops, if "#define" <= lines[0] then ops.define(env, lines[0]) else env, lines[1..])
  }

  /** The body of the first branch of a chain whose test holds. */
  function Chosen<E>(ops: Ops<E>, env: E, c: Item): Items
    requires c.Chain?
  {
    if ops.test(env, c.open) then c.first else ChosenArm(ops, env, c.arms)
  }

  function ChosenArm<E>(ops: Ops<E>, env: E, a: Arms): Items {
    match a
    case End => Nil
    case Arm(line, body, next) => if "#else" <= line || ops.test(env, line) then body
        else ChosenArm(ops, env, next)
  }

  lemma {:induction false} FlatWrites<E>(ops: Ops<E>, env: E, t: Items)
    requires Flat(t)
    ensures EvalFlat(ops, env, t) == (Defined(ops, env, Print(t)), Written(Print(t)))
    decreases t
  {
    if t.Cons? {
      var line := t.item.text;
      KindExactly(line);
      WrittenLine(line);
      hide KindOf, Emit;
      assert Print(t) == [line] + Print(t.rest);
      EvalFlatLine(ops, env, t);
      FlatWrites(ops, if KindOf(line) == Define then ops.define(env, line) else env, t.rest);
    }
  }

  lemma {:induction false} ArmsWrite<E>(ops: Ops<E>, env: E, a: Arms)
    requires FlatArms(a)
    ensures var lines := Print(ChosenArm(ops, env, a));
            EvalArms(ops, env, a) == (Defined(ops, env, lines), Written(lines))
    decreases a
  {
    if a.Arm? {
      KindExactly(a.line);
      hide KindOf;
      FlatWrites(ops, env, a.body);
      ArmsWrite(ops, env, a.next);
    }
  }

  /** A chain without nested conditionals writes exactly the lines of its first true branch that are neither blank
      nor definitions, obeys the definitions among them, and ends behind its #endif. */
  lemma ChainWrites<E>(ops: Ops<E>, c: Item, s: State<E>)
    requires c.Chain? && WellFormedItem(c) && Flat(c.first) && FlatArms(c.arms)
    ensures Opens(c.open)
    ensures var lines := Print(Chosen(ops, s.env, c));
            Inner(ops, PutAll(PrintItem(c), s)) == s.(env := Defined(ops, s.env, lines), out := s.out + Written(lines))
  {
    hide Inner, PutAll, PrintItem, EvalFlat, EvalArms, Defined, Written;
    ChainRun(ops, c, s);
    FlatWrites(ops, s.env, c.first);
    ArmsWrite(ops, s.env, c.arms);
  }

  // ---- blocks ----

  /** The two texts of a block, as lines put in front of what follows. */
  lemma BlockText<E>(b: Item, s: State<E>)
    requires b.Block?
    ensures b.otherwise.None? ==>
      PutAll(PrintItem(b), s) == Put(b.open, PutAll(Print(b.yes), Put(b.close, s)))
    ensures b.otherwise.Some? ==>
      PutAll(PrintItem(b), s) ==
      Put(b.open, PutAll(Print(b.yes), Put(b.otherwise.value.line, PutAll(Print(b.otherwise.value.body), Put(b.close,
          s)))))
  {
    hide Print;
    PutCons(b.close, [], s);
    PutNone(s);
    if b.otherwise.None? {
      PutCons(b.open, Print(b.yes) + [b.close], s);
      PutJoin(Print(b.yes), [b.close], s);
      assert PutAll([b.close], s) == Put(b.close, s);
    } else {
      var o := b.otherwise.value;
      PutCons(b.open, Print(b.yes) + ([o.line] + (Print(o.body) + [b.close])), s);
      PutJoin(Print(b.yes), [o.line] + (Print(o.body) + [b.close]), s);
      PutCons(o.line, Print(o.body) + [b.close], s);
      PutJoin(Print(o.body), [b.close], s);
      assert PutAll([b.close], s) == Put(b.close, s);
    }
  }

  lemma AtClose<E>(ops: Ops<E>, close: string, s: State<E>, cond: bool)
    requires KindOf(close) == EndIf
    ensures IfDefRun(ops, Put(close, s), cond) == s
  {
    hide IfDefRun, KindOf;
    PutLine(close, s);
    IfDefLine(ops, Put(close, s), cond);
  }

  lemma AtElse<E>(ops: Ops<E>, line: string, s: State<E>, cond: bool)
    requires KindOf(line) == Else
    ensures IfDefRun(ops, Put(line, s), cond) == IfDefRun(ops, s, !cond)
  {
    hide IfDefRun, KindOf;
    PutLine(line, s);
    IfDefLine(ops, Put(line, s), cond);
  }

  lemma DidBefore<E>(line: string, lines: seq<string>, s: State<E>, done: (E, seq<string>))
    ensures Did(Put(line, s), done) == Put(line, Did(s, done))
    ensures Did(PutAll(lines, s), done) == PutAll(lines, Did(s, done))
    ensures Put(line, s).env == s.env && PutAll(lines, s).env == s.env && Did(s, done).env == done.0
  {
  }

  lemma InnerOfBlock<E>(ops: Ops<E>, line: string, s: State<E>)
    requires Opens(line) && KindOf(line) != If
    ensures Inner(ops, Put(line, s)) == IfDefRun(ops, s, Taken(ops, s.env, line))
  {
    hide IfDefRun, KindOf, Taken;
    PutLine(line, s);
  }

  /** A conditional whose untaken parts hold no conditional is consumed exactly, and does what its evaluation says. */
  lemma {:induction false} BlockRun<E>(ops: Ops<E>, i: Item, s: State<E>)
    requires WellFormedItem(i) && !i.Line? && CleanItem(ops, s.env, i)
    ensures Inner(ops, PutAll(PrintItem(i), s)) == Did(s, EvalItem(ops, s.env, i))
    decreases i, 0
  {
    hide IfElse, IfDefRun, Put, PutAll, Print, PrintItem, KindOf, Pass, Inner, Eval, EvalFlat, EvalArms, Did, Taken;
    if i.Chain? {
      ChainRun(ops, i, s);
    } else {
      assert Opens(i.open);
      BlockText(i, s);
      var close := Put(i.close, s);
      DidBefore(i.close, [], s, Eval(ops, s.env, i.yes));
      if i.otherwise.None? {
        var inside := PutAll(Print(i.yes), close);
        DidBefore(i.open, Print(i.yes), close, (s.env, []));
        InnerOfBlock(ops, i.open, inside);
        if Taken(ops, s.env, i.open) {
          TakenRun(ops, i.yes, close);
          AtClose(ops, i.close, Did(s, Eval(ops, s.env, i.yes)), true);
        } else {
          SkipIfDef(ops, i.yes, close);
          AtClose(ops, i.close, s, false);
          DidNothing(s);
        }
      } else {
        var o := i.otherwise.value;
        var body := PutAll(Print(o.body), close);
        var middle := Put(o.line, body);
        var inside := PutAll(Print(i.yes), middle);
        DidBefore(o.line, Print(o.body), close, (s.env, []));
        DidBefore(o.line, Print(i.yes), body, (s.env, []));
        DidBefore(o.line, Print(i.yes), middle, (s.env, []));
        InnerOfBlock(ops, i.open, inside);
        if Taken(ops, s.env, i.open) {
          var done := Eval(ops, s.env, i.yes);
          TakenRun(ops, i.yes, middle);
          DidBefore(o.line, [], body, done);
          DidBefore(i.close, Print(o.body), close, done);
          AtElse(ops, o.line, Did(body, done), true);
          SkipIfDef(ops, o.body, Did(close, done));
          AtClose(ops, i.close, Did(s, done), false);
        } else {
          var done := Eval(ops, s.env, o.body);
          SkipIfDef(ops, i.yes, middle);
          AtElse(ops, o.line, body, false);
          TakenRun(ops, o.body, close);
          DidBefore(i.close, [], s, done);
          AtClose(ops, i.close, Did(s, done), true);
        }
      }
    }
  }

  lemma ItemRun<E>(ops: Ops<E>, i: Item, s: State<E>)
    requires WellFormedItem(i) && CleanItem(ops, s.env, i)
    ensures IfDefRun(ops, PutAll(PrintItem(i), s), true) == IfDefRun(ops, Did(s, EvalItem(ops, s.env, i)), true)
    decreases i, 1
  {
    hide IfElse, IfDefRun, Print, KindOf, Pass, Inner, Eval, EvalFlat, EvalArms, Taken, CleanItem;
    IfDefLine(ops, PutAll(PrintItem(i), s), true);
    if i.Line? {
      NotOpening(i.text);
      PutLine(i.text, s);
      assert PutAll(PrintItem(i), s) == Put(i.text, s);
    } else {
      BlockRun(ops, i, s);
      assert PrintItem(i)[0] == i.open;
      assert PutAll(PrintItem(i), s).rest[0] == i.open;
      assert Opens(i.open);
      NotBoth(i.open);
    }
  }

  lemma NotBoth(line: string)
    requires Opens(line)
    ensures KindOf(line) != EndIf && KindOf(line) != Else
  {
  }

  /** The lines of a taken branch of ifdef. */
  lemma {:induction false} TakenRun<E>(ops: Ops<E>, t: Items, s: State<E>)
    requires WellFormed(t) && Clean(ops, s.env, t)
    ensures IfDefRun(ops, PutAll(Print(t), s), true) == IfDefRun(ops, Did(s, Eval(ops, s.env, t)), true)
    decreases t, 2
  {
    hide IfDefRun, Put, PutAll, PrintItem, KindOf, EvalItem, Did, WellFormedItem, CleanItem;
    if t.Nil? {
      PutNone(s);
      DidNothing(s);
    } else {
      var later := PutAll(Print(t.rest), s);
      PutJoin(PrintItem(t.item), Print(t.rest), s);
      var done := EvalItem(ops, s.env, t.item);
      DidBefore("", Print(t.rest), s, done);
      ItemRun(ops, t.item, later);
      TakenRun(ops, t.rest, Did(s, done));
      DidTwice(s, done, Eval(ops, done.0, t.rest));
    }
  }

  // ---- what ifdef writes ----

  /** A line that is no conditional and ends no branch. */
  predicate Plain(line: string) {
    !("#if" <= line) && !("#else" <= line) && !("#elif" <= line) && !("#endif" <= line)
  }

  lemma PlainIsFlat(line: string)
    ensures Plain(line) <==> FlatText(line)
  {
    KindExactly(line);
  }

  /** What plain lines in a taken branch do: three directives act on the table, the last of them may write; any other
      line is written unless it is blank. */
  function Does<E>(ops: Ops<E>, env: E, lines: seq<string>): (E, seq<string>)
    decreases |lines|
  {
    if lines == [] then (env, [])
    else
      var line := lines[0];
      var (e, out) :=
        if "#define" <= line then (ops.define(env, line), [])
        else if "#undef" <= line then (ops.undef(env, line), [])
        else if "#include" <= line then ops.expand(env, line)
        else (env, if "\n" <= line then [] else [line]);
      var (e', out') := Does(ops, e, lines[1..]);
      (e', out + out')
  }

  function AsItems(lines: seq<string>): (t: Items)
    ensures Flat(t)
  {
    if lines == [] then Nil else Cons(Line(lines[0]), AsItems(lines[1..]))
  }

  lemma {:induction false} ItemsOf(lines: seq<string>)
    requires forall line :: line in lines ==> Plain(line)
    ensures Print(AsItems(lines)) == lines && WellFormed(AsItems(lines))
    decreases |lines|
  {
    if lines != [] {
      PlainIsFlat(lines[0]);
      hide KindOf, Plain;
      ItemsOf(lines[1..]);
    }
  }

  lemma {:induction false} PlainDoes<E>(ops: Ops<E>, env: E, lines: seq<string>)
    requires forall line :: line in lines ==> Plain(line)
    ensures Eval(ops, env, AsItems(lines)) == Does(ops, env, lines) && Clean(ops, env, AsItems(lines))
    decreases |lines|
  {
    if lines != [] {
      KindExactly(lines[0]);
      WrittenLine(lines[0]);
      hide KindOf, Opens, Emit;
      PlainDoes(ops, PlainLine(ops, env, lines[0]).0, lines[1..]);
    }
  }

  /** The lines of a conditional on a name. */
  function BlockLines(open: string, yes: seq<string>, otherwise: Option<(string, seq<string>)>, close: string):
      seq<string> {
    [open] + (yes + ((if otherwise.Some? then [otherwise.value.0] + otherwise.value.1 else []) + [close]))
  }

  /** #ifdef takes its first part if and only if its name is defined, #ifndef if and only if it is not; the part that
      is taken acts line by line, and nothing else does. */
  lemma IfDefWrites<E>(ops: Ops<E>, open: string, yes: seq<string>, otherwise: Option<(string, seq<string>)>,
                       close: string, s: State<E>)
    requires ("#ifdef" <= open || "#ifndef" <= open) && "#endif" <= close
    requires forall line :: line in yes ==> Plain(line)
    requires otherwise.Some? ==>
      "#else" <= otherwise.value.0 && forall line :: line in otherwise.value.1 ==> Plain(line)
    ensures Opens(open)
    ensures var taken := if "#ifdef" <= open then ops.defined(s.env, open) else !ops.defined(s.env, open);
      var lines := if taken then yes else if otherwise.Some? then otherwise.value.1 else [];
      Inner(ops, s.(rest := BlockLines(open, yes, otherwise, close) + s.rest)) ==
      s.(env := Does(ops, s.env, lines).0, out := s.out + Does(ops, s.env, lines).1)
  {
    var branch := if otherwise.Some? then Some(Branch(otherwise.value.0, AsItems(otherwise.value.1))) else None;
    var b := Block(open, AsItems(yes), branch, close);
    KindExactly(open);
    KindExactly(close);
    ItemsOf(yes);
    PlainDoes(ops, s.env, yes);
    if otherwise.Some? {
      KindExactly(otherwise.value.0);
      ItemsOf(otherwise.value.1);
      PlainDoes(ops, s.env, otherwise.value.1);
    }
    hide KindOf, Opens, Eval, Clean, Does, Inner, IfDefRun, AsItems, Print;
    assert PrintItem(b) == BlockLines(open, yes, otherwise, close);
    BlockRun(ops, b, s);
  }
}
