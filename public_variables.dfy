/** How an UdonBehaviour's public variable table is brought into line with the compiled
    program when the program asset draws its inspector: the specification of
    UdonSharpProgramAsset.DrawPublicVariables and of the null scene-reference drop in
    DrawProgramSourceGUI, with the properties they keep. */
module PublicVariables {
  import opened UdonValues
  import opened UdonProgram
  import opened VariableTable

  type Table = map<string, Variable>

  predicate Distinct(order: seq<string>)
  {
    forall i, j :: 0 <= i < j < |order| ==> order[i] != order[j]
  }

  /** The prune pass: every variable whose symbol is no longer exported is removed. */
  function Pruned(t: Table, p: Program): (r: Table)
    ensures r.Keys == t.Keys * Exported(p)
    ensures forall k :: k in r ==> r[k] == t[k]
  {
    map k | k in t && k in Exported(p) :: t[k]
  }

  /** An exported symbol's variable is missing, was declared with another type, or has no value. */
  predicate NeedsRepair(t: Table, p: WfProgram, symbol: string)
    requires symbol in Exported(p)
  {
    symbol !in t || t[symbol].declaredType != SymbolType(p, symbol) || t[symbol].value.None?
  }

  /** What a visited symbol's variable ends up as. */
  function RepairedEntry(t: Table, p: WfProgram, symbol: string): (v: Variable)
    requires symbol in Exported(p)
  {
    if NeedsRepair(t, p, symbol) then Variable(SymbolType(p, symbol), Some(HeapDefault(p, symbol)))
    else t[symbol]
  }

  /** The table once the symbols in `done` have been visited, in whatever order. */
  function Repaired(t: Table, p: WfProgram, done: set<string>): (r: Table)
    requires done <= Exported(p)
  {
    map k | k in t.Keys + done :: if k in done then RepairedEntry(t, p, k) else t[k]
  }

  /** One pass of the loop over the exported symbols, with the field widget returning the
      value it was given: replace a missing or mistyped variable by the heap default, default a
      missing value, and store the value back once `dirty` is set. */
  function Visit(t: Table, dirty: bool, p: WfProgram, symbol: string): (r: (Table, bool))
    requires symbol in Exported(p)
    // the visited symbol ends up with a variable of its compiled type holding a value: the
    // compiled default when it needed repair, its old variable otherwise ...
    ensures r.0.Keys == t.Keys + {symbol}
    ensures r.0[symbol] == if NeedsRepair(t, p, symbol)
      then Variable(SymbolType(p, symbol), Some(HeapDefault(p, symbol))) else t[symbol]
    ensures r.0[symbol].declaredType == SymbolType(p, symbol) && r.0[symbol].value.Some?
    // ... no other variable changes, and dirty is set iff it was or a repair was needed
    ensures forall k :: k in t && k != symbol ==> r.0[k] == t[k]
    ensures r.1 <==> dirty || NeedsRepair(t, p, symbol)
  {
    var symbolType := SymbolType(p, symbol);
    var (t1, d1) :=
      if symbol !in t || t[symbol].declaredType != symbolType
      then (t[symbol := Variable(symbolType, Some(HeapDefault(p, symbol)))], true)
      else (t, dirty);
    var (value, d2) :=
      if t1[symbol].value.None? then (HeapDefault(p, symbol), true)
      else (t1[symbol].value.value, d1);
    if d2 then (t1[symbol := Variable(t1[symbol].declaredType, Some(value))], true)
    else (t1, d2)
  }

  /** The loop over the exported symbols, visiting them in the order given. */
  function VisitInOrder(t: Table, dirty: bool, p: WfProgram, order: seq<string>): (r: (Table, bool))
    requires forall s :: s in order ==> s in Exported(p)
    decreases |order|
  {
    if order == [] then (t, dirty)
    else
      var (t', d') := VisitInOrder(t, dirty, p, order[..|order| - 1]);
      Visit(t', d', p, order[|order| - 1])
  }

  /** Visiting one more symbol `s` extends the closed form by `s`. */
  lemma VisitExtends(t: Table, dirty: bool, p: WfProgram, done: set<string>, s: string)
    requires done <= Exported(p) && s in Exported(p) && s !in done
    ensures Visit(Repaired(t, p, done), dirty, p, s) == (Repaired(t, p, done + {s}), dirty || NeedsRepair(t, p, s))
  {
    var t' := Repaired(t, p, done);
    var expected := Repaired(t, p, done + {s});
    assert s in t' <==> s in t;
    assert s in t ==> t'[s] == t[s];
    var ty, def := SymbolType(p, s), HeapDefault(p, s);
    if s !in t' || t'[s].declaredType != ty {
      var t1 := t'[s := Variable(ty, Some(def))];
      assert t1[s := Variable(t1[s].declaredType, Some(def))] == t1;
      assert expected == t1;
    } else if t'[s].value.None? {
      assert expected == t'[s := Variable(ty, Some(def))];
    } else {
      assert t'[s := Variable(t'[s].declaredType, Some(t'[s].value.value))] == t';
      assert expected == t';
    }
  }

  /** Some symbol of `done` needed repair in the table the loop started from. */
  predicate AnyNeedsRepair(t: Table, p: WfProgram, done: set<string>)
    requires done <= Exported(p)
  {
    exists s :: s in done && NeedsRepair(t, p, s)
  }

  lemma AnyNeedsRepairAdd(t: Table, p: WfProgram, done: set<string>, s: string)
    requires done <= Exported(p) && s in Exported(p)
    ensures AnyNeedsRepair(t, p, done + {s}) <==> AnyNeedsRepair(t, p, done) || NeedsRepair(t, p, s)
  {
  }

  /** The symbols of a list of distinct symbols are those of its prefix and its last one,
      which is not in the prefix. */
  lemma SplitLast(order: seq<string>)
    requires order != [] && Distinct(order)
    ensures var n := |order| - 1;
      order[n] !in (set x | x in order[..n]) &&
      (set x | x in order) == (set x | x in order[..n]) + {order[n]}
  {
    var n := |order| - 1;
    assert order == order[..n] + [order[n]];
    forall i | 0 <= i < n ensures order[..n][i] != order[n] {
      assert order[i] != order[n];
    }
  }

  /** The HashSet gives no order: whatever order the symbols are visited in, each visited
      symbol gets its repaired entry, the rest of the table is untouched, and `dirty` ends up
      set exactly when it already was or some visited symbol needed repair. */
  lemma {:induction false} VisitInOrderIsOrderFree(t: Table, dirty: bool, p: WfProgram, order: seq<string>)
    requires forall s :: s in order ==> s in Exported(p)
    requires Distinct(order)
    ensures VisitInOrder(t, dirty, p, order) ==
      (Repaired(t, p, set s | s in order), dirty || AnyNeedsRepair(t, p, set s | s in order))
  {
    if order == [] {
      assert (set s | s in order) == {};
      assert Repaired(t, p, {}) == t;
    } else {
      var n := |order| - 1;
      var prefix, s := order[..n], order[n];
      var done := set x | x in prefix;
      VisitInOrderIsOrderFree(t, dirty, p, prefix);
      var d' := dirty || AnyNeedsRepair(t, p, done);
      assert VisitInOrder(t, dirty, p, order) == Visit(Repaired(t, p, done), d', p, s);
      SplitLast(order);
      VisitExtends(t, d', p, done, s);
      AnyNeedsRepairAdd(t, p, done, s);
    }
  }

  /** The exported symbols whose field definition carries HideInInspector. */
  function HiddenSymbols(exported: set<string>, fields: map<string, FieldDefinition>): (r: set<string>)
  {
    set s | s in exported && s in fields && fields[s].hideInInspector
  }

  /** The drawing returns before the repair loop: nothing is exported, or every exported
      field is hidden (hiddenCount >= exportedSymbolNames.Count). */
  predicate SkipsRepair(p: Program, fields: Option<map<string, FieldDefinition>>)
  {
    |Exported(p)| == 0 ||
    (fields.Some? && |HiddenSymbols(Exported(p), fields.value)| >= |Exported(p)|)
  }

  /** The table and the dirty flag after DrawPublicVariables against program `p`. */
  function AfterDraw(t: Table, dirty: bool, p: WfProgram, fields: Option<map<string, FieldDefinition>>): (r: (Table, bool))
    // every key left is exported, and no exported key is removed
    ensures r.0.Keys <= Exported(p)
    ensures forall k :: k in t && k in Exported(p) ==> k in r.0
    // once set, dirty stays set; the prune pass alone never sets it
    ensures dirty ==> r.1
    ensures SkipsRepair(p, fields) ==> r == (Pruned(t, p), dirty)
    // otherwise every exported symbol has a variable of its compiled type with a value ...
    ensures !SkipsRepair(p, fields) ==>
      r.0.Keys == Exported(p) &&
      forall s :: s in Exported(p) ==>
        r.0[s].declaredType == SymbolType(p, s) && r.0[s].value.Some?
    // ... the compiled default where it needed repair, the old variable where it did not ...
    ensures !SkipsRepair(p, fields) ==>
      forall s :: s in Exported(p) ==>
        r.0[s] == if NeedsRepair(t, p, s) then Variable(SymbolType(p, s), Some(HeapDefault(p, s))) else t[s]
    // ... and dirty is set exactly when it was or something needed repair
    ensures !SkipsRepair(p, fields) ==>
      (r.1 <==> dirty || exists s :: s in Exported(p) && NeedsRepair(t, p, s))
  {
    var pruned := Pruned(t, p);
    if SkipsRepair(p, fields) then (pruned, dirty)
    else
      assert forall s :: s in Exported(p) ==> NeedsRepair(pruned, p, s) == NeedsRepair(t, p, s);
      (Repaired(pruned, p, Exported(p)), dirty || AnyNeedsRepair(pruned, p, Exported(p)))
  }

  /** A table already in line with the program is left as it is and does not set dirty. */
  lemma DrawKeepsConsistentTable(t: Table, p: WfProgram, fields: Option<map<string, FieldDefinition>>)
    requires !SkipsRepair(p, fields)
    requires t.Keys == Exported(p)
    requires forall s :: s in Exported(p) ==> t[s].declaredType == SymbolType(p, s) && t[s].value.Some?
    ensures AfterDraw(t, false, p, fields) == (t, false)
  {
    var r := AfterDraw(t, false, p, fields);
    forall s | s in Exported(p) ensures !NeedsRepair(t, p, s) && r.0[s] == t[s] {
    }
    assert r.0 == t;
  }

  /** Drawing a second time changes nothing and does not set dirty: the table is already
      in line with the program. */
  lemma AfterDrawIsIdempotent(t: Table, dirty: bool, p: WfProgram, fields: Option<map<string, FieldDefinition>>)
    ensures AfterDraw(AfterDraw(t, dirty, p, fields).0, false, p, fields) == (AfterDraw(t, dirty, p, fields).0, false)
  {
    var t1 := AfterDraw(t, dirty, p, fields).0;
    if SkipsRepair(p, fields) {
      assert Pruned(t1, p) == t1;
    } else {
      DrawKeepsConsistentTable(t1, p, fields);
    }
  }

  /** A variable the behaviour would rebind to itself: a null GameObject, UdonBehaviour or Transform. */
  predicate IsNullSceneReference(v: Variable)
  {
    v.value == Some(Null) && IsSceneReferenceType(v.declaredType)
  }

  /** The drop pass over the exported symbols `names`: exactly their null scene references go. */
  function DropNullSceneReferences(t: Table, names: set<string>): (r: Table)
    ensures forall k :: k in r <==> k in t && !(k in names && IsNullSceneReference(t[k]))
    ensures forall k :: k in r ==> r[k] == t[k]
  {
    map k | k in t && !(k in names && IsNullSceneReference(t[k])) :: t[k]
  }

  /** After the draw and the drop pass (DrawProgramSourceGUI), each exported symbol either has a
      variable of its compiled type holding a value that is not a null scene reference, or has
      no variable because its compiled default is one; nothing else is in the table. */
  lemma {:induction false} SourceGuiLeavesConsistentTable(t: Table, dirty: bool, p: WfProgram, fields: Option<map<string, FieldDefinition>>)
    requires !SkipsRepair(p, fields)
    ensures var r := DropNullSceneReferences(AfterDraw(t, dirty, p, fields).0, Exported(p));
      r.Keys <= Exported(p) &&
      forall s :: s in Exported(p) ==>
        if s in r then r[s].declaredType == SymbolType(p, s) && r[s].value.Some? && !IsNullSceneReference(r[s])
        else NeedsRepair(t, p, s) ==> IsSceneReferenceType(SymbolType(p, s)) && HeapDefault(p, s) == Null
  {
    var t1 := AfterDraw(t, dirty, p, fields).0;
    var r := DropNullSceneReferences(t1, Exported(p));
    forall s | s in Exported(p) && s !in r && NeedsRepair(t, p, s)
      ensures IsSceneReferenceType(SymbolType(p, s)) && HeapDefault(p, s) == Null
    {
      assert t1[s] == Variable(SymbolType(p, s), Some(HeapDefault(p, s)));
    }
  }

  /** An exported GameObject, UdonBehaviour or Transform whose compiled default is null and
      that has no usable variable never settles: the drop pass removes the variable the draw
      has just added, so the next draw finds it missing again, adds it and sets dirty. */
  lemma NullSceneDefaultDirtiesEveryDraw(t: Table, dirty: bool, p: WfProgram,
                                         fields: Option<map<string, FieldDefinition>>, s: string)
    requires !SkipsRepair(p, fields)
    requires s in Exported(p) && IsSceneReferenceType(SymbolType(p, s)) && HeapDefault(p, s) == Null
    requires NeedsRepair(t, p, s)
    ensures var r := DropNullSceneReferences(AfterDraw(t, dirty, p, fields).0, Exported(p));
      s !in r && AfterDraw(r, false, p, fields).1
  {
  }
}
