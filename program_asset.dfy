/** The UdonSharp program asset: its compile state, the assembler call, and the repair of an
    UdonBehaviour's public variables against the compiled program when the inspector is drawn. */
module ProgramAsset {
  import opened UdonValues
  import opened UdonProgram
  import opened VariableTable
  import opened PublicVariables

  /** The reserved entry point name of the platform's interact event. */
  const InteractEventName := "_interact"

  /** What the automatic refresh asks of the editor. */
  datatype EditorState = EditorState(isCompiling: bool, isUpdating: bool)

  /** The loop over the program's entry points that looks for the interact event. */
  method HasInteractEntryPoint(entryPoints: seq<string>) returns (found: bool)
    ensures found <==> InteractEventName in entryPoints
  {
    found := false;
    var i := 0;
    while i < |entryPoints|
      invariant 0 <= i <= |entryPoints|
      invariant InteractEventName !in entryPoints[..i]
    {
      if entryPoints[i] == InteractEventName {
        found := true;
        break;
      }
      i := i + 1;
    }
  }

  /** The loop that counts the exported symbols whose field is marked HideInInspector. */
  method CountHidden(exported: set<string>, fields: map<string, FieldDefinition>) returns (hiddenCount: nat)
    ensures hiddenCount == |HiddenSymbols(exported, fields)|
  {
    hiddenCount := 0;
    var pending := exported;
    while pending != {}
      invariant pending <= exported
      invariant hiddenCount == |HiddenSymbols(exported - pending, fields)|
      decreases pending
    {
      var symbol :| symbol in pending;
      ghost var seen := exported - pending;
      assert exported - (pending - {symbol}) == seen + {symbol};
      if symbol in fields && fields[symbol].hideInInspector {
        assert HiddenSymbols(seen + {symbol}, fields) == HiddenSymbols(seen, fields) + {symbol};
        hiddenCount := hiddenCount + 1;
      } else {
        assert HiddenSymbols(seen + {symbol}, fields) == HiddenSymbols(seen, fields);
      }
      pending := pending - {symbol};
    }
    assert exported - pending == exported;
  }

  lemma {:induction false} SubsetSize(a: set<string>, b: set<string>)
    requires a <= b
    ensures |a| <= |b|
    decreases b
  {
    if a != {} {
      var x :| x in a;
      SubsetSize(a - {x}, b - {x});
    }
  }

  /** The hidden-count test (hiddenCount >= exportedSymbolNames.Count) holds exactly when every
      exported symbol has a field definition marked HideInInspector. */
  lemma AllHiddenIff(exported: set<string>, fields: map<string, FieldDefinition>)
    ensures |HiddenSymbols(exported, fields)| >= |exported| <==>
      forall s :: s in exported ==> s in fields && fields[s].hideInInspector
  {
    var hidden := HiddenSymbols(exported, fields);
    if s :| s in exported && !(s in fields && fields[s].hideInInspector) {
      SubsetSize(hidden, exported - {s});
    } else {
      assert hidden == exported;
    }
  }

  class UdonSharpProgramAsset {
    var hasSourceScript: bool             // sourceCsScript != null
    var udonAssembly: string
    var program: Option<WfProgram>
    var assemblyError: Option<string>     // the base asset's private assemblyError
    var hasInteractEvent: bool
    var compileErrors: seq<string>

    constructor ()
      ensures !hasSourceScript && udonAssembly == "" && program == None && assemblyError == None
      ensures !hasInteractEvent && compileErrors == []
    {
      hasSourceScript := false;
      udonAssembly := "";
      program := None;
      assemblyError := None;
      hasInteractEvent := false;
      compileErrors := [];
    }

    /** The condition under which RefreshProgramImpl compiles: once a compile or assembly
        error is recorded, or while there is no source script, no automatic compile happens. */
    function ShouldAutoCompile(editor: EditorState): (r: bool)
      reads this
      ensures r ==> hasSourceScript
      ensures |compileErrors| > 0 || assemblyError.Some? ==> !r
      ensures editor.isCompiling || editor.isUpdating ==> !r
    {
      hasSourceScript && !editor.isCompiling && !editor.isUpdating &&
      assemblyError.None? && |compileErrors| == 0
    }

    /** Runs the compiler; an exception is added to the error list and thrown on. */
    method CompileCsProgram(run: CompilerRun) returns (rethrown: Option<Exception>)
      modifies this`compileErrors
      ensures run.Completes? ==> compileErrors == old(compileErrors) && rethrown == None
      ensures run.Throws? ==> compileErrors == old(compileErrors) + [run.error.text] && rethrown == Some(run.error)
    {
      rethrown := None;
      match run
      case Completes =>
      case Throws(e) =>
        compileErrors := compileErrors + [e.text];
        rethrown := Some(e);
    }

    /** Compiles only when there is a source script, the editor is neither compiling nor
        updating, there is no assembly error and no compile error is recorded. */
    method RefreshProgramImpl(editor: EditorState, run: CompilerRun) returns (ghost attempted: bool, rethrown: Option<Exception>)
      modifies this`compileErrors
      ensures attempted <==> old(ShouldAutoCompile(editor))
      ensures compileErrors == if attempted && run.Throws? then old(compileErrors) + [run.error.text] else old(compileErrors)
      ensures rethrown == if attempted && run.Throws? then Some(run.error) else None
    {
      attempted := false;
      rethrown := None;
      if ShouldAutoCompile(editor) {
        attempted := true;
        rethrown := CompileCsProgram(run);
      }
    }

    /** Assembles the current assembly text with the given heap size. */
    method AssembleCsProgram(heapSize: UInt32, assemble: Assembler)
      modifies this`program, this`assemblyError, this`hasInteractEvent
      ensures assemble(udonAssembly, heapSize).Assembled? ==>
        program == Some(assemble(udonAssembly, heapSize).program) && assemblyError == None &&
        (hasInteractEvent <==> InteractEventName in program.value.entryPoints)
      ensures assemble(udonAssembly, heapSize).AssemblyFailed? ==>
        program == None && assemblyError == Some(assemble(udonAssembly, heapSize).error.message) &&
        hasInteractEvent == old(hasInteractEvent)
    {
      match assemble(udonAssembly, heapSize)
      case Assembled(p) =>
        program := Some(p);
        assemblyError := None;
        hasInteractEvent := HasInteractEntryPoint(p.entryPoints);
      case AssemblyFailed(e) =>
        program := None;
        assemblyError := Some(e.message);
    }

    /** A public variable's default: the heap template's value at the symbol's address. */
    function GetPublicVariableDefaultValue(symbol: string): (v: Value)
      reads this
      requires program.Some? && symbol in Exported(program.value)
      ensures v in program.value.heap
      ensures v == program.value.heap[program.value.symbolTable.addresses[symbol]]
    {
      HeapDefault(program.value, symbol)
    }

    /** Brings the behaviour's public variables into line with the program. The field widget is
        taken to return the value it is given. */
    method DrawPublicVariables(behaviour: UdonVariableTable?, sourceFields: Option<map<string, FieldDefinition>>, dirtyIn: bool)
      returns (dirty: bool)
      modifies behaviour
      ensures behaviour != null && program.Some? ==>
        (behaviour.variables, dirty) == AfterDraw(old(behaviour.variables), dirtyIn, program.value, sourceFields)
      ensures behaviour == null || program.None? ==> dirty == dirtyIn
      ensures behaviour != null && program.None? ==> behaviour.variables == old(behaviour.variables)
    {
      dirty := dirtyIn;
      if program.None? || behaviour == null {
        // no symbol table, or no behaviour: only the compiled defaults are drawn
        return;
      }
      var p := program.value;
      var exportedSymbolNames := Exported(p);
      RemoveUnexported(behaviour, exportedSymbolNames);
      assert behaviour.variables == Pruned(old(behaviour.variables), p);

      if |exportedSymbolNames| == 0 {
        return;
      }
      if sourceFields.Some? {
        var hiddenCount := CountHidden(exportedSymbolNames, sourceFields.value);
        if hiddenCount >= |exportedSymbolNames| {
          return;
        }
      }

      dirty := VisitAllExported(behaviour, dirty);
    }

    /** The loop over the exported-symbol HashSet, in the order the set hands them out. */
    method VisitAllExported(behaviour: UdonVariableTable, dirtyIn: bool) returns (dirty: bool)
      requires program.Some?
      modifies behaviour
      ensures (behaviour.variables, dirty) ==
        (Repaired(old(behaviour.variables), program.value, Exported(program.value)),
         dirtyIn || AnyNeedsRepair(old(behaviour.variables), program.value, Exported(program.value)))
    {
      dirty := dirtyIn;
      var p := program.value;
      var exportedSymbolNames := Exported(p);
      ghost var visited: seq<string> := [];
      var remaining := exportedSymbolNames;
      while remaining != {}
        invariant remaining <= exportedSymbolNames
        invariant forall s :: s in visited ==> s in exportedSymbolNames && s !in remaining
        invariant forall s :: s in exportedSymbolNames ==> s in remaining || s in visited
        invariant Distinct(visited)
        invariant (behaviour.variables, dirty) == VisitInOrder(old(behaviour.variables), dirtyIn, p, visited)
        decreases remaining
      {
        var exportedSymbol :| exportedSymbol in remaining;
        dirty := VisitExported(behaviour, exportedSymbol, dirty);
        assert (visited + [exportedSymbol])[..|visited|] == visited;
        visited := visited + [exportedSymbol];
        remaining := remaining - {exportedSymbol};
      }
      VisitInOrderIsOrderFree(old(behaviour.variables), dirtyIn, p, visited);
      assert (set s | s in visited) == exportedSymbolNames;
    }

    /** The remove block: drops every variable whose symbol is not exported. */
    method RemoveUnexported(behaviour: UdonVariableTable, exportedSymbolNames: set<string>)
      modifies behaviour
      ensures behaviour.variables.Keys == old(behaviour.variables).Keys * exportedSymbolNames
      ensures forall k :: k in behaviour.variables ==> behaviour.variables[k] == old(behaviour.variables)[k]
    {
      var pending := behaviour.variables.Keys;
      while pending != {}
        invariant pending <= old(behaviour.variables).Keys
        invariant behaviour.variables ==
          map k | k in old(behaviour.variables) && (k in pending || k in exportedSymbolNames) :: old(behaviour.variables)[k]
        decreases pending
      {
        var variableSymbol :| variableSymbol in pending;
        if variableSymbol !in exportedSymbolNames {
          behaviour.RemoveVariable(variableSymbol);
        }
        pending := pending - {variableSymbol};
      }
    }

    /** One pass of the loop over the exported symbols. */
    method VisitExported(behaviour: UdonVariableTable, exportedSymbol: string, dirtyIn: bool) returns (dirty: bool)
      requires program.Some? && exportedSymbol in Exported(program.value)
      modifies behaviour
      ensures (behaviour.variables, dirty) == Visit(old(behaviour.variables), dirtyIn, program.value, exportedSymbol)
    {
      dirty := dirtyIn;
      var symbolType := SymbolType(program.value, exportedSymbol);
      var declaredType := behaviour.TryGetVariableType(exportedSymbol);
      if declaredType.None? || declaredType.value != symbolType {
        behaviour.RemoveVariable(exportedSymbol);
        var added := behaviour.TryAddVariable(exportedSymbol, Variable(symbolType, Some(GetPublicVariableDefaultValue(exportedSymbol))));
        assert added;  // the symbol was just removed, so adding it back cannot fail
        dirty := true;
        assert behaviour.variables == old(behaviour.variables)[exportedSymbol := Variable(symbolType, Some(GetPublicVariableDefaultValue(exportedSymbol)))];
      }
      var variableValue: Value;
      var found := behaviour.TryGetVariableValue(exportedSymbol);
      if found.None? {
        variableValue := GetPublicVariableDefaultValue(exportedSymbol);
        dirty := true;
      } else {
        variableValue := found.value;
      }
      if dirty {
        var stored := behaviour.TrySetVariableValue(exportedSymbol, variableValue);
        assert stored;  // the symbol is present, so the add-variable fallback is never taken
      }
    }

    /** The part of the inspector drawing that changes state: with a source script, the public
        variables are brought into line with the program, and then, unless runtime values are
        shown, every exported null GameObject, UdonBehaviour or Transform variable is dropped. */
    method DrawProgramSourceGUI(behaviour: UdonVariableTable?, sourceFields: Option<map<string, FieldDefinition>>,
                                shouldUseRuntimeValue: bool, dirtyIn: bool)
      returns (dirty: bool)
      modifies behaviour
      ensures behaviour != null && hasSourceScript && program.Some? ==>
        var (drawn, d) := AfterDraw(old(behaviour.variables), dirtyIn, program.value, sourceFields);
        dirty == d &&
        behaviour.variables == if shouldUseRuntimeValue then drawn
                               else DropNullSceneReferences(drawn, Exported(program.value))
      ensures behaviour == null || !hasSourceScript || program.None? ==> dirty == dirtyIn
      ensures behaviour != null && (!hasSourceScript || program.None?) ==> behaviour.variables == old(behaviour.variables)
    {
      dirty := dirtyIn;
      if !hasSourceScript {
        return;
      }
      dirty := DrawPublicVariables(behaviour, sourceFields, dirty);
      if behaviour != null && !shouldUseRuntimeValue && program.Some? {
        RemoveNullSceneReferences(behaviour, program.value.symbolTable.exportedSymbols);
      }
    }

    /** The loop over the exported symbol names that removes null scene references. */
    method RemoveNullSceneReferences(behaviour: UdonVariableTable, exportedSymbolNames: seq<string>)
      modifies behaviour
      ensures behaviour.variables == DropNullSceneReferences(old(behaviour.variables), set x | x in exportedSymbolNames)
    {
      ghost var drawn := behaviour.variables;
      for i := 0 to |exportedSymbolNames|
        invariant behaviour.variables == DropNullSceneReferences(drawn, set j | 0 <= j < i :: exportedSymbolNames[j])
      {
        var exportedSymbolName := exportedSymbolNames[i];
        ghost var before := set j | 0 <= j < i :: exportedSymbolNames[j];
        assert (set j | 0 <= j < i + 1 :: exportedSymbolNames[j]) == before + {exportedSymbolName};
        var variableValue := behaviour.TryGetVariableValue(exportedSymbolName);
        var variableType := behaviour.TryGetVariableType(exportedSymbolName);
        if variableValue.Some? && variableType.Some? &&
           variableValue.value == Null && IsSceneReferenceType(variableType.value) {
          behaviour.RemoveVariable(exportedSymbolName);
        }
        assert behaviour.variables == DropNullSceneReferences(drawn, before + {exportedSymbolName});
      }
      assert (set j | 0 <= j < |exportedSymbolNames| :: exportedSymbolNames[j]) == set x | x in exportedSymbolNames;
    }
  }
}
