/** When a conditional is consumed exactly: openings passed over are counted against the #endif lines consumed. */
module ConditionalLimits {
  import opened Conditionals
  import opened ConditionalMeaning

  // ---- counting ----

  function Weight(line: string): int { if KindOf(line) == EndIf then 1 else if Opens(line) then -1 else 0 }

  /** How many more #endif lines than opening lines there are. */
  function Excess(lines: seq<string>): int { if lines == [] then 0 else Weight(lines[0]) + Excess(lines[1..]) }

  lemma {:induction false} ExcessJoin(a: seq<string>, b: seq<string>)
    ensures Excess(a + b) == Excess(a) + Excess(b)
  {
    if a == [] {
      assert a + b == b;
    } else {
      assert (a + b)[1..] == a[1..] + b;
      ExcessJoin(a[1..], b);
    }
  }

  lemma ExcessOne(line: string)
    ensures Excess([line]) == Weight(line)
  {
    assert [line][1..] == [];
  }

  /** What a run has used up: #endif lines, less opening lines, plus opening lines passed over. */
  function Used<E>(s: State<E>, r: State<E>): int { Excess(s.rest) - Excess(r.rest) + r.missed - s.missed }

  lemma UsedStep<E>(s: State<E>)
    requires s.rest != []
    ensures Used(s, Eat(s)) == Weight(s.rest[0])
    ensures Used(s, Pass(s)) == if KindOf(s.rest[0]) == EndIf then 1 else 0
  {
  }

  lemma WeightOf(line: string)
    ensures Weight(line) == if KindOf(line) == EndIf then 1 else if Opens(line) then -1 else 0
    ensures Opens(line) ==>
      KindOf(line) != EndIf && KindOf(line) != Else && KindOf(line) != Elif && KindOf(line) != Define
  {
  }

  /** A call of ifelse uses up at most the one #endif that ends it. */
  lemma {:induction false} IfElseUses<E>(ops: Ops<E>, s: State<E>, cond: bool, done: bool)
    ensures Used(s, IfElse(ops, s, cond, done)) <= 1 && IfElse(ops, s, cond, done).missed >= s.missed
    decreases |s.rest|
  {
    hide IfElse, KindOf, Opens, Weight, Excess;
    IfElseLine(ops, s, cond, done);
    if s.rest != [] {
      UsedStep(s);
      WeightOf(s.rest[0]);
      if KindOf(s.rest[0]) != EndIf {
        IfElseUses(ops, Pass(s), cond, done);
        IfElseUses(ops, Eat(s), true, cond);
        IfElseUses(ops, Eat(s), true, true);
        IfElseUses(ops, Eat(s), ops.test(s.env, s.rest[0]), false);
        FlatLineCases(ops, s);
        IfElseUses(ops, FlatLine(ops, s), cond, done);
      }
    }
  }

  lemma {:induction false} IfDefUses<E>(ops: Ops<E>, s: State<E>, cond: bool)
    ensures Used(s, IfDefRun(ops, s, cond)) <= 1 && IfDefRun(ops, s, cond).missed >= s.missed
    decreases |s.rest|, 1
  {
    hide IfDefRun, KindOf, Opens, Weight, Excess, Inner;
    IfDefLine(ops, s, cond);
    if s.rest != [] {
      UsedStep(s);
      WeightOf(s.rest[0]);
      if KindOf(s.rest[0]) == EndIf {
      } else if KindOf(s.rest[0]) == Else {
        IfDefUses(ops, Eat(s), !cond);
      } else if !cond {
        IfDefUses(ops, Pass(s), cond);
      } else if Opens(s.rest[0]) {
        InnerUses(ops, s);
        IfDefUses(ops, Inner(ops, s), cond);
      } else {
        PlainKeeps(ops, s);
        IfDefUses(ops, PlainState(ops, s), cond);
      }
    }
  }

  lemma PlainKeeps<E>(ops: Ops<E>, s: State<E>)
    requires s.rest != []
    ensures PlainState(ops, s).rest == Eat(s).rest && PlainState(ops, s).missed == s.missed
  {
  }

  /** The opening line of a block pays for its #endif. */
  lemma InnerUses<E>(ops: Ops<E>, s: State<E>)
    requires s.rest != [] && Opens(s.rest[0])
    ensures Used(s, Inner(ops, s)) <= 0 && Inner(ops, s).missed >= s.missed
    decreases |s.rest|, 0
  {
    hide IfElse, IfDefRun, KindOf, Opens, Weight, Excess, Taken;
    UsedStep(s);
    WeightOf(s.rest[0]);
    IfElseUses(ops, Eat(s), Taken(ops, s.env, s.rest[0]), false);
    IfDefUses(ops, Eat(s), Taken(ops, s.env, s.rest[0]));
  }

  // ---- printed trees are balanced ----

  lemma {:induction false} Balanced(t: Items)
    requires WellFormed(t)
    ensures Excess(Print(t)) == 0
  {
    if t.Cons? {
      BalancedItem(t.item);
      Balanced(t.rest);
      ExcessJoin(PrintItem(t.item), Print(t.rest));
    }
  }

  lemma {:induction false} BalancedItem(i: Item)
    requires WellFormedItem(i)
    ensures Excess(PrintItem(i)) == 0
  {
    hide KindOf, Opens, Weight, Excess;
    if i.Line? {
      NotOpening(i.text);
      WeightOf(i.text);
      ExcessOne(i.text);
    } else if i.Block? {
      Ends(i.open, i.close);
      Balanced(i.yes);
      ExcessOne(i.open);
      ExcessOne(i.close);
      if i.otherwise.None? {
        ExcessJoin(Print(i.yes), [i.close]);
        ExcessJoin([i.open], Print(i.yes) + [i.close]);
      } else {
        var o := i.otherwise.value;
        Balanced(o.body);
        Between(o.line);
        ExcessOne(o.line);
        ExcessJoin(Print(o.body), [i.close]);
        ExcessJoin([o.line], Print(o.body) + [i.close]);
        ExcessJoin(Print(i.yes), [o.line] + (Print(o.body) + [i.close]));
        ExcessJoin([i.open], Print(i.yes) + ([o.line] + (Print(o.body) + [i.close])));
      }
    } else {
      Ends(i.open, i.close);
      Balanced(i.first);
      BalancedArms(i.arms);
      ExcessOne(i.open);
      ExcessOne(i.close);
      ExcessJoin(PrintArms(i.arms), [i.close]);
      ExcessJoin(Print(i.first), PrintArms(i.arms) + [i.close]);
      ExcessJoin([i.open], Print(i.first) + (PrintArms(i.arms) + [i.close]));
    }
  }

  lemma Ends(open: string, close: string)
    requires KindOf(open) == IfDef || KindOf(open) == IfNDef || KindOf(open) == If
    requires KindOf(close) == EndIf
    ensures Weight(open) == -1 && Weight(close) == 1
  {
  }

  lemma Between(line: string)
    requires KindOf(line) == Else || KindOf(line) == Elif
    ensures Weight(line) == 0
  {
  }

  lemma {:induction false} BalancedArms(a: Arms)
    requires WellFormedArms(a)
    ensures Excess(PrintArms(a)) == 0
  {
    hide KindOf, Opens, Weight;
    if a.Arm? {
      Between(a.line);
      ExcessOne(a.line);
      Balanced(a.body);
      BalancedArms(a.next);
      ExcessJoin(Print(a.body), PrintArms(a.next));
      ExcessJoin([a.line], Print(a.body) + PrintArms(a.next));
    }
  }

  // ---- a conditional in the wrong place is passed over ----

  lemma OpensBlock(i: Item)
    requires WellFormedItem(i) && !i.Line?
    ensures Opens(i.open) && PrintItem(i) != [] && PrintItem(i)[0] == i.open
  {
  }

  /** A printed list that is not empty begins with the opening line or the text of its first item. */
  lemma FirstLine<E>(t: Items, s: State<E>)
    requires t.Cons? && WellFormed(t)
    ensures t.item.Line? ==> PutAll(Print(t), s) == Put(t.item.text, PutAll(Print(t.rest), s)) && FlatText(t.item.text)
    ensures !t.item.Line? ==>
      Opens(t.item.open) && PutAll(Print(t), s).rest != [] && PutAll(Print(t), s).rest[0] == t.item.open
  {
    if t.item.Line? {
      PutCons(t.item.text, Print(t.rest), s);
    } else {
      OpensBlock(t.item);
    }
  }

  lemma {:induction false} IfDefMisses<E>(ops: Ops<E>, t: Items, s: State<E>)
    requires WellFormed(t) && !Flat(t)
    ensures IfDefRun(ops, PutAll(Print(t), s), false).missed > s.missed
  {
    hide IfDefRun, KindOf, Opens, Print, Used;
    var all := PutAll(Print(t), s);
    FirstLine(t, s);
    IfDefLine(ops, all, false);
    if t.item.Line? {
      NotOpening(t.item.text);
      PutLine(t.item.text, PutAll(Print(t.rest), s));
      IfDefMisses(ops, t.rest, s);
    } else {
      WeightOf(t.item.open);
      IfDefUses(ops, Pass(all), false);
    }
  }

  lemma {:induction false} IfElseMisses<E>(ops: Ops<E>, t: Items, s: State<E>, cond: bool, done: bool)
    requires WellFormed(t) && !Flat(t)
    ensures IfElse(ops, PutAll(Print(t), s), cond, done).missed > s.missed
    decreases t
  {
    hide IfElse, KindOf, Opens, Print, Used, FlatLine, Emit;
    var all := PutAll(Print(t), s);
    FirstLine(t, s);
    IfElseLine(ops, all, cond, done);
    FlatLineCases(ops, all);
    if t.item.Line? {
      var line := t.item.text;
      var later := PutAll(Print(t.rest), s);
      NotOpening(line);
      PutLine(line, later);
      IfElseMisses(ops, t.rest, s, cond, done);
      if cond && !done {
        var after := if KindOf(line) == Define then s.(env := ops.define(s.env, line))
            else s.(out := s.out + Emit(line));
        IfElseMisses(ops, t.rest, after, cond, done);
      }
    } else {
      WeightOf(t.item.open);
      IfElseUses(ops, Pass(all), cond, done);
      IfElseUses(ops, FlatLine(ops, all), cond, done);
    }
  }

  /** ifelse past lines without conditionals, in any mode. */
  lemma PastFlat<E>(ops: Ops<E>, t: Items, s: State<E>, cond: bool, done: bool) returns (r: State<E>)
    requires WellFormed(t) && Flat(t)
    ensures IfElse(ops, PutAll(Print(t), s), cond, done) == IfElse(ops, r, cond, done)
    ensures r.rest == s.rest && r.missed == s.missed
  {
    hide IfElse, Print, EvalFlat;
    if cond && !done {
      TakeIfElse(ops, t, s);
      r := Did(s, EvalFlat(ops, s.env, t));
    } else {
      SkipIfElse(ops, t, s, cond, done);
      r := s;
    }
  }

  lemma {:induction false} ArmsMiss<E>(ops: Ops<E>, a: Arms, close: string, s: State<E>, cond: bool, done: bool)
    requires WellFormedArms(a) && !FlatArms(a)
    ensures IfElse(ops, PutAll(PrintArms(a) + [close], s), cond, done).missed > s.missed
    decreases a
  {
    hide IfElse, KindOf, Print, PrintArms, Put;
    ArmText(a, close, s);
    var rest := PutAll(PrintArms(a.next) + [close], s);
    var later := PutAll(Print(a.body), rest);
    PutLine(a.line, later);
    Between(a.line);
    WeightOf(a.line);
    IfElseLine(ops, Put(a.line, later), cond, done);
    PutKeepsOne(a.line, later);
    var test := ops.test(later.env, a.line);
    var c := if done then cond else if cond || KindOf(a.line) == Else then true else test;
    var d := done || cond;
    BodyMiss(ops, a, close, s, c, d);
  }

  lemma BodyMiss<E>(ops: Ops<E>, a: Arms, close: string, s: State<E>, cond: bool, done: bool)
    requires a.Arm? && WellFormedArms(a) && !FlatArms(a)
    ensures IfElse(ops, PutAll(Print(a.body), PutAll(PrintArms(a.next) + [close], s)), cond, done).missed > s.missed
    decreases a, 0
  {
    hide IfElse, KindOf, Print, PrintArms;
    var rest := PutAll(PrintArms(a.next) + [close], s);
    if !Flat(a.body) {
      IfElseMisses(ops, a.body, rest, cond, done);
    } else {
      var r := PastFlat(ops, a.body, rest, cond, done);
      assert r == PutAll(PrintArms(a.next) + [close], r.(rest := s.rest));
      ArmsMiss(ops, a.next, close, r.(rest := s.rest), cond, done);
    }
  }

  lemma ChainMisses<E>(ops: Ops<E>, c: Item, s: State<E>)
    requires c.Chain? && WellFormedItem(c) && !(Flat(c.first) && FlatArms(c.arms))
    ensures Inner(ops, PutAll(PrintItem(c), s)).missed > s.missed
  {
    hide IfElse, IfDefRun, Print, PrintArms, KindOf, Taken;
    assert Opens(c.open);
    var tail := PrintArms(c.arms) + [c.close];
    var rest := PutAll(tail, s);
    var later := PutAll(Print(c.first), rest);
    PutCons(c.open, Print(c.first) + tail, s);
    PutJoin(Print(c.first), tail, s);
    assert PutAll(PrintItem(c), s) == Put(c.open, later);
    PutLine(c.open, later);
    var cond := Taken(ops, s.env, c.open);
    if !Flat(c.first) {
      IfElseMisses(ops, c.first, rest, cond, false);
    } else {
      var r := PastFlat(ops, c.first, rest, cond, false);
      assert r == PutAll(tail, r.(rest := s.rest));
      ArmsMiss(ops, c.arms, c.close, r.(rest := s.rest), cond, false);
    }
  }

  lemma {:induction false} BlockMisses<E>(ops: Ops<E>, i: Item, s: State<E>)
    requires WellFormedItem(i) && !i.Line? && !CleanItem(ops, s.env, i)
    ensures Inner(ops, PutAll(PrintItem(i), s)).missed > s.missed
    decreases i, 0
  {
    hide IfElse, IfDefRun, Put, PutAll, Print, PrintItem, KindOf, Pass, Inner, Eval, Did, Taken;
    OpensBlock(i);
    if i.Chain? {
      ChainMisses(ops, i, s);
    } else {
      BlockText(i, s);
      var close := Put(i.close, s);
      Same(i.close, [], s);
      if i.otherwise.None? {
        InnerOfBlock(ops, i.open, PutAll(Print(i.yes), close));
        Same(i.close, Print(i.yes), close);
        if Taken(ops, s.env, i.open) {
          ItemsMiss(ops, i.yes, close);
        } else {
          IfDefMisses(ops, i.yes, close);
        }
      } else {
        var o := i.otherwise.value;
        var body := PutAll(Print(o.body), close);
        var middle := Put(o.line, body);
        InnerOfBlock(ops, i.open, PutAll(Print(i.yes), middle));
        Same(o.line, Print(o.body), close);
        Same(o.line, [], body);
        Same(o.line, Print(i.yes), middle);
        if Taken(ops, s.env, i.open) {
          if !Clean(ops, s.env, i.yes) {
            ItemsMiss(ops, i.yes, middle);
          } else {
            var done := Eval(ops, s.env, i.yes);
            TakenRun(ops, i.yes, middle);
            DidBefore(o.line, Print(o.body), body, done);
            DidBefore(i.close, Print(o.body), close, done);
            AtElse(ops, o.line, Did(body, done), true);
            DidMissed(close, done);
            IfDefMisses(ops, o.body, Did(close, done));
          }
        } else if !Flat(i.yes) {
          IfDefMisses(ops, i.yes, middle);
        } else {
          SkipIfDef(ops, i.yes, middle);
          AtElse(ops, o.line, body, false);
          ItemsMiss(ops, o.body, close);
        }
      }
    }
  }

  lemma Same<E>(line: string, lines: seq<string>, s: State<E>)
    ensures Put(line, s).env == s.env && Put(line, s).missed == s.missed
    ensures PutAll(lines, s).env == s.env && PutAll(lines, s).missed == s.missed
  {
  }

  lemma DidMissed<E>(s: State<E>, done: (E, seq<string>))
    ensures Did(s, done).missed == s.missed && Did(s, done).env == done.0
  {
  }

  lemma {:induction false} ItemsMiss<E>(ops: Ops<E>, t: Items, s: State<E>)
    requires WellFormed(t) && !Clean(ops, s.env, t)
    ensures IfDefRun(ops, PutAll(Print(t), s), true).missed > s.missed
    decreases t
  {
    hide IfDefRun, PutAll, PrintItem, KindOf, EvalItem, Did, WellFormedItem, CleanItem, Inner, Used;
    var later := PutAll(Print(t.rest), s);
    PutJoin(PrintItem(t.item), Print(t.rest), s);
    Same("", Print(t.rest), s);
    if CleanItem(ops, s.env, t.item) {
      var done := EvalItem(ops, s.env, t.item);
      DidBefore("", Print(t.rest), s, done);
      DidMissed(s, done);
      ItemRun(ops, t.item, later);
      ItemsMiss(ops, t.rest, Did(s, done));
    } else {
      LineIsClean(ops, s.env, t.item);
      OpensBlock(t.item);
      var all := PutAll(PrintItem(t.item), later);
      StartsWith(t.item, later);
      BlockMisses(ops, t.item, later);
      NotBoth(t.item.open);
      IfDefLine(ops, all, true);
      IfDefUses(ops, Inner(ops, all), true);
    }
  }

  lemma LineIsClean<E>(ops: Ops<E>, env: E, i: Item)
    requires !CleanItem(ops, env, i)
    ensures !i.Line?
  {
  }

  lemma StartsWith<E>(i: Item, s: State<E>)
    requires WellFormedItem(i) && !i.Line?
    ensures PutAll(PrintItem(i), s).rest != [] && PutAll(PrintItem(i), s).rest[0] == i.open && Opens(i.open)
  {
  }

  // ---- the main result ----

  /** A conditional is consumed exactly, no more and no less, if and only if no conditional lies inside a part that
      is not taken or inside a chain; and then the output and the table are those of its evaluation. */
  lemma BlockExactly<E>(ops: Ops<E>, i: Item, s: State<E>)
    requires WellFormedItem(i) && !i.Line?
    ensures Inner(ops, PutAll(PrintItem(i), s)).rest == s.rest <==> CleanItem(ops, s.env, i)
    ensures CleanItem(ops, s.env, i) ==> Inner(ops, PutAll(PrintItem(i), s)) == Did(s, EvalItem(ops, s.env, i))
  {
    hide Inner, KindOf, CleanItem, EvalItem, PrintItem, Excess, Opens;
    var all := PutAll(PrintItem(i), s);
    StartsWith(i, s);
    if CleanItem(ops, s.env, i) {
      BlockRun(ops, i, s);
    } else {
      BlockMisses(ops, i, s);
      InnerUses(ops, all);
      BalancedItem(i);
      ExcessJoin(PrintItem(i), s.rest);
    }
  }

  /** The failing case in full: a conditional inside a branch that is not taken ends that branch early, and the lines
      after it are read as if they stood outside. */
  lemma NestedEndsEarly<E>(ops: Ops<E>, outer: Item, s: State<E>)
    requires WellFormedItem(outer) && outer.Block? && outer.otherwise.None? && !Taken(ops, s.env, outer.open)
    requires outer.yes.Cons? && outer.yes.item.Block? && outer.yes.item.otherwise.None? && Flat(outer.yes.item.yes)
    ensures Inner(ops, PutAll(PrintItem(outer), s)) ==
            s.(rest := Print(outer.yes.rest) + ([outer.close] + s.rest), missed := s.missed + 1)
  {
    hide IfElse, IfDefRun, Print, PrintItem, KindOf, Inner, Taken;
    var nested, after := outer.yes.item, outer.yes.rest;
    OpensBlock(outer);
    OpensBlock(nested);
    NotBoth(nested.open);
    BlockText(outer, s);
    var close := Put(outer.close, s);
    var rest := PutAll(Print(after), close);
    assert Print(outer.yes) == PrintItem(nested) + Print(after) by { PrintCons(outer.yes); }
    PutJoin(PrintItem(nested), Print(after), close);
    BlockText(nested, rest);
    InnerOfBlock(ops, outer.open, PutAll(Print(outer.yes), close));
    var inside := PutAll(Print(nested.yes), Put(nested.close, rest));
    PutLine(nested.open, inside);
    IfDefLine(ops, Put(nested.open, inside), false);
    var passed := Put(nested.close, rest.(missed := s.missed + 1));
    assert Pass(Put(nested.open, inside)) == PutAll(Print(nested.yes), passed);
    SkipIfDef(ops, nested.yes, passed);
    AtClose(ops, nested.close, rest.(missed := s.missed + 1), false);
  }

  lemma PrintCons(t: Items)
    requires t.Cons?
    ensures Print(t) == PrintItem(t.item) + Print(t.rest)
  {
  }
}
