# UdonSharp program asset and local-function tests, modelled in Dafny

UdonSharp compiles C# behaviours into Udon programs for VRChat. An `UdonSharpProgramAsset`
keeps one C# source script and the program compiled from it. It also keeps the list of
compile errors, the assembly error and whether the program has an `_interact` entry point.
When the Unity inspector draws an `UdonBehaviour` that uses the asset, the asset brings the
behaviour's public-variable table into line with the compiled program:

- variables whose symbol is no longer exported are removed;
- missing variables, and variables declared with a stale type, are replaced by the program's
  heap default for that symbol;
- a variable without a value gets the heap default;
- the value is written back once the `dirty` flag is set.

Afterwards, exported GameObject, UdonBehaviour and Transform variables holding null are
dropped, because the runtime would rebind them to the behaviour itself.

The model covers:

- that reconciliation;
- the compile and assemble state of the asset;
- the two array edits of the inspector's array field: resizing through the "Size" field, and
  appending the references dropped on it;
- the file name proposed for a new script;
- the `LocalFunctionTest` test behaviour, with each test proved to pass.

Modules:

- `UdonValues`: the Udon types and heap values the model tells apart (`UType`, `Value`): the
  scene-reference types, `int`, `bool`, `string`, `object`, user behaviours, other reference
  types and arrays of these. It also has the element type's default and `Option`.
- `UdonProgram`: a compiled program as the asset sees it. It has a symbol table (exported
  symbols, their types, their heap addresses), a heap template and the entry points. This
  module also defines the exception values and the assembler and compiler as black boxes.
- `VariableTable`: the behaviour's public-variable table (`IUdonVariableTable`) as a class over
  a map, with the five operations the asset calls on it.
- `PublicVariables`: the specification of the reconciliation. `AfterDraw` gives the table and
  the dirty flag after a draw, and `DropNullSceneReferences` gives the table after the drop
  pass. The lemmas here show that:
  - the loop over the unordered `HashSet` gives the same result in every order;
  - a second draw changes nothing;
  - what the inspector leaves behind is consistent.
- `ProgramAsset`: the class `UdonSharpProgramAsset`. Its methods follow the source loop by
  loop and are proved against the functions of `PublicVariables`.
- `ArrayEdits`: `Resize` and `AcceptDrag` on arrays, and lemmas relating the two.
- `ScriptNames`: the asset-name rewrite behind the "Create Script" button.
- `LocalFunctionTests`: the test behaviour. C# `int` arithmetic is modelled with 32-bit
  wrap-around.

Two behaviours of `UdonSharpProgramAsset.cs` are worth stating plainly:

- The remove block (lines 1030-1037) does not touch `dirty`, so pruning alone leaves the flag
  as it was. `AfterDraw` states this.
- `AssembleCsProgram` catches the assembler's exception, sets `program` to null and stores
  `e.Message` without rethrowing (lines 332-353).

## Model

| member | source | states |
|---|---|---|
| PublicVariables.Pruned | Assets/UdonSharp/Editor/UdonSharpProgramAsset.cs:1030-1037 | The remove block keeps exactly the variables whose symbol is exported, and keeps them unchanged. |
| PublicVariables.Visit | Assets/UdonSharp/Editor/UdonSharpProgramAsset.cs:1081-1111 | One iteration of the loop: the visited symbol ends with a variable of its compiled type holding a value, the compiled default where it needed repair and its old variable otherwise. No other variable changes, and dirty is set iff it was or a repair was needed. |
| PublicVariables.VisitExtends | Assets/UdonSharp/Editor/UdonSharpProgramAsset.cs:1081-1111 | Visiting one more exported symbol gives that symbol its repaired variable, leaves every other entry alone, and sets dirty exactly when the symbol needed repair. |
| PublicVariables.VisitInOrderIsOrderFree | Assets/UdonSharp/Editor/UdonSharpProgramAsset.cs:1071-1111 | In whatever order the exported-symbol HashSet is visited, the table becomes the same closed form. Each visited symbol gets the heap default if its variable was missing, mistyped or valueless, and keeps its variable otherwise. Dirty ends up set iff it already was or some symbol needed repair. |
| PublicVariables.AfterDraw | Assets/UdonSharp/Editor/UdonSharpProgramAsset.cs:1028-1120 | After a draw, no unexported variable is left and no exported one is lost, and dirty is never cleared. With nothing exported, or every exported field hidden, only the prune happens and dirty is unchanged. Otherwise every exported symbol has a variable of its compiled type with a value: the heap default where a repair was needed, the old variable where not. Dirty is then set iff it was or a repair was needed. |
| PublicVariables.DrawKeepsConsistentTable | Assets/UdonSharp/Editor/UdonSharpProgramAsset.cs:1081-1101 | A table already matching the program (exactly the exported keys, each with the compiled type and a value) is left unchanged and the draw does not set dirty. |
| PublicVariables.AfterDrawIsIdempotent | Assets/UdonSharp/Editor/UdonSharpProgramAsset.cs:1028-1111 | Drawing a second time leaves the table as the first draw left it and does not set dirty. |
| PublicVariables.DropNullSceneReferences | Assets/UdonSharp/Editor/UdonSharpProgramAsset.cs:189-204 | A variable is removed iff its symbol is exported and it holds null with a GameObject, UdonBehaviour or Transform type; all other variables stay unchanged. |
| PublicVariables.SourceGuiLeavesConsistentTable | Assets/UdonSharp/Editor/UdonSharpProgramAsset.cs:183-205 | After the draw and the drop pass, only exported symbols remain. Each remaining one has its compiled type, a value, and is not a null scene reference. A symbol that is missing and needed repair has a scene-reference type with a null heap default. |
| PublicVariables.NullSceneDefaultDirtiesEveryDraw | Assets/UdonSharp/Editor/UdonSharpProgramAsset.cs:183-205 | An exported scene-reference symbol with a null heap default and no usable variable is gone after the drop pass. The next draw then sets dirty again. |
| ProgramAsset.HasInteractEntryPoint | Assets/UdonSharp/Editor/UdonSharpProgramAsset.cs:337-346 | The entry-point loop finds the interact event iff `_interact` is among the entry points. |
| ProgramAsset.CountHidden | Assets/UdonSharp/Editor/UdonSharpProgramAsset.cs:1050-1061 | The count is the number of exported symbols whose field definition exists and carries HideInInspector. |
| ProgramAsset.AllHiddenIff | Assets/UdonSharp/Editor/UdonSharpProgramAsset.cs:1063-1068 | `hiddenCount >= exportedSymbolNames.Count` holds iff every exported symbol has a field definition marked HideInInspector. |
| ProgramAsset.UdonSharpProgramAsset.CompileCsProgram | Assets/UdonSharp/Editor/UdonSharpProgramAsset.cs:286-298 | The catch block's effect on the error list the compiler leaves behind: when the compile completes the asset adds nothing to it; when it throws, the exception's text is appended and the same exception is rethrown. |
| ProgramAsset.UdonSharpProgramAsset.ShouldAutoCompile | Assets/UdonSharp/Editor/UdonSharpProgramAsset.cs:269-275 | No automatic compile without a source script, while the editor is compiling or updating, or once a compile or assembly error is recorded. |
| ProgramAsset.UdonSharpProgramAsset.RefreshProgramImpl | Assets/UdonSharp/Editor/UdonSharpProgramAsset.cs:267-279 | The compile runs iff `ShouldAutoCompile` held: a source script, the editor neither compiling nor updating, no assembly error and no compile error recorded. Otherwise nothing changes. |
| ProgramAsset.UdonSharpProgramAsset.GetPublicVariableDefaultValue | Assets/UdonSharp/Editor/UdonSharpProgramAsset.cs:281-284 | A symbol's default is the heap template's value at the address the symbol table gives for it. |
| ProgramAsset.UdonSharpProgramAsset.AssembleCsProgram | Assets/UdonSharp/Editor/UdonSharpProgramAsset.cs:318-354 | On success the program is the assembled one, the assembly error is cleared, and hasInteractEvent holds iff `_interact` is an entry point. On failure the program is null, the error message is stored, and hasInteractEvent is left as it was. |
| ProgramAsset.UdonSharpProgramAsset.DrawPublicVariables | Assets/UdonSharp/Editor/UdonSharpProgramAsset.cs:1002-1120 | With a behaviour and a program, the new table and dirty flag are exactly `AfterDraw` of the old ones. Without either, nothing changes. |
| ProgramAsset.UdonSharpProgramAsset.RemoveUnexported | Assets/UdonSharp/Editor/UdonSharpProgramAsset.cs:1030-1037 | After the loop, exactly the variables with exported symbols remain, unchanged. |
| ProgramAsset.UdonSharpProgramAsset.VisitAllExported | Assets/UdonSharp/Editor/UdonSharpProgramAsset.cs:1071-1117 | The loop over the exported-symbol set, taken in whatever order the set yields, leaves every exported symbol with its repaired variable, keeps the rest of the table, and sets dirty iff it was set or some symbol needed repair. |
| ProgramAsset.UdonSharpProgramAsset.VisitExported | Assets/UdonSharp/Editor/UdonSharpProgramAsset.cs:1073-1111 | One loop iteration changes the table and dirty as the specification's `Visit` does. The TryAddVariable and TrySetVariableValue fallbacks are proved never taken. |
| ProgramAsset.UdonSharpProgramAsset.DrawProgramSourceGUI | Assets/UdonSharp/Editor/UdonSharpProgramAsset.cs:133-205 | Without a source script nothing changes. Otherwise the table is `AfterDraw`'s, followed by `DropNullSceneReferences` unless runtime values are shown, and dirty is `AfterDraw`'s. |
| ProgramAsset.UdonSharpProgramAsset.RemoveNullSceneReferences | Assets/UdonSharp/Editor/UdonSharpProgramAsset.cs:185-205 | The loop over the exported names leaves the table as `DropNullSceneReferences` of the table it started from. |
| VariableTable.UdonVariableTable.TryGetVariableType | Assets/UdonSharp/Editor/UdonSharpProgramAsset.cs:1081 | Finds a type iff the symbol has a variable, and returns its declared type. |
| VariableTable.UdonVariableTable.TryGetVariableValue | Assets/UdonSharp/Editor/UdonSharpProgramAsset.cs:1093 | Finds a value iff the symbol has a variable holding a value, and returns that value. |
| VariableTable.UdonVariableTable.TryAddVariable | Assets/UdonSharp/Editor/UdonSharpProgramAsset.cs:1084 | Adds the variable iff the symbol is absent; otherwise nothing changes. |
| VariableTable.UdonVariableTable.TrySetVariableValue | Assets/UdonSharp/Editor/UdonSharpProgramAsset.cs:1105 | Stores the value iff the symbol is present, keeping its declared type; otherwise nothing changes. |
| VariableTable.UdonVariableTable.RemoveVariable | Assets/UdonSharp/Editor/UdonSharpProgramAsset.cs:1083 | Only the symbol's variable is removed. |
| ArrayEdits.EffectiveLength | Assets/UdonSharp/Editor/UdonSharpProgramAsset.cs:677-682 | A non-negative requested size is used as given. A negative one is replaced by the old length. |
| ArrayEdits.Resize | Assets/UdonSharp/Editor/UdonSharpProgramAsset.cs:684-708 | Returns a fresh array of the effective length. It holds the common prefix of the old array. Any new slots repeat the old last element, unless the old array was empty or that element is an array; then they hold the element type's default. |
| ArrayEdits.AcceptDrag | Assets/UdonSharp/Editor/UdonSharpProgramAsset.cs:589-653 | A jagged array field takes no drop, and nothing changes when no reference was accepted. Otherwise a null array throws a null reference exception, and any other array gives a fresh array with the old elements followed by the accepted references in order. |
| ArrayEdits.Resized | Assets/UdonSharp/Editor/UdonSharpProgramAsset.cs:687-705 | The resized contents have the new length and keep the common prefix. New slots hold the old last element, or the element default when the old array was empty or its last element is an array. |
| UdonValues.DefaultOf | Assets/UdonSharp/Editor/UdonSharpProgramAsset.cs:646 | A new array's slot holds a value of the element type: the zero of that type, null exactly for reference types. |
| ArrayEdits.GrowThenShrinkRestores | Assets/UdonSharp/Editor/UdonSharpProgramAsset.cs:687-705 | Growing an array and then resizing it back to its old length gives the old contents. |
| ArrayEdits.ShrinkUndoesAppend | Assets/UdonSharp/Editor/UdonSharpProgramAsset.cs:644-653 | Resizing the result of a drag back to the old length removes exactly the dragged references. |
| ArrayEdits.ResizeTwoToFourAndBack | Assets/UdonSharp/Editor/UdonSharpProgramAsset.cs:694-705 | Resizing `[x, y]` to four slots gives `[x, y, y, y]`, or `[x, y, d, d]` when y is an array. Resizing back to two gives `[x, y]`. |
| ScriptNames.ReplaceAll | Assets/UdonSharp/Editor/UdonSharpProgramAsset.cs:384 | The ordinal String.Replace, left to right without overlaps; replacing a text by itself changes nothing. |
| ScriptNames.ReplaceAllRemovesChar | Assets/UdonSharp/Editor/UdonSharpProgramAsset.cs:384 | Replacing one character by a text that does not contain it leaves no occurrence of it. |
| ScriptNames.ReplaceAllKeepsAbsent | Assets/UdonSharp/Editor/UdonSharpProgramAsset.cs:384 | A character found in neither the text nor the replacement is not in the result. |
| ScriptNames.ScriptFileName | Assets/UdonSharp/Editor/UdonSharpProgramAsset.cs:384 | The proposed script name contains no space and no `#`. |
| ScriptNames.StripSuffixAfterWord | Assets/UdonSharp/Editor/UdonSharpProgramAsset.cs:384 | For every name without spaces, removing " Udon C# Program Asset" from the name followed by that suffix gives the name back. |
| ScriptNames.ScriptFileNameOfNewAsset | Assets/UdonSharp/Editor/UdonSharpProgramAsset.cs:384 | A new asset named "New Udon C# Program Asset" proposes the script name "New". |
| ScriptNames.ScriptFileNameSpellsSharp | Assets/UdonSharp/Editor/UdonSharpProgramAsset.cs:384 | "My C#" becomes "MyCSharp": spaces are dropped and `#` is spelled out. |
| LocalFunctionTests.Wrap | Assets/UdonSharp/Tests/TestScripts/Core/LocalFunctionTest.cs:32 | C# `int` arithmetic: the result is congruent to the exact value modulo 2^32, and equal to it when that value fits in 32 bits. |
| LocalFunctionTests.LocalFunctionTest.GetCountAmount | Assets/UdonSharp/Tests/TestScripts/Core/LocalFunctionTest.cs:28 | The event increment is the constant 4. |
| LocalFunctionTests.LocalFunctionTest.IncrementCounter | Assets/UdonSharp/Tests/TestScripts/Core/LocalFunctionTest.cs:28-33 | The counter grows by GetCountAmount(), which is 4, with 32-bit wrap-around. |
| LocalFunctionTests.LocalFunctionTest.TestCustomEvents | Assets/UdonSharp/Tests/TestScripts/Core/LocalFunctionTest.cs:35-47 | Three events sent to itself count 12, and one more through the self reference counts 16. Both assertions pass. |
| LocalFunctionTests.LocalFunctionTest.AddIntegers | Assets/UdonSharp/Tests/TestScripts/Core/LocalFunctionTest.cs:49-53 | The result is a + 1 + b modulo 2^32, and exact when that fits in 32 bits. |
| LocalFunctionTests.LocalFunctionTest.TestFunctionParameters | Assets/UdonSharp/Tests/TestScripts/Core/LocalFunctionTest.cs:55-60 | AddIntegers(4, 6) is 11, and the caller's `a` stays 4. The assertion passes. |
| LocalFunctionTests.LocalFunctionTest.AddIntegers2 | Assets/UdonSharp/Tests/TestScripts/Core/LocalFunctionTest.cs:62-65 | The result is a + b modulo 2^32, and exact when that fits in 32 bits. |
| LocalFunctionTests.LocalFunctionTest.TestIntermediateReturn | Assets/UdonSharp/Tests/TestScripts/Core/LocalFunctionTest.cs:67-71 | AddIntegers2(2, 4) + AddIntegers2(6, 9) is 21. The assertion passes. |
| LocalFunctionTests.LocalFunctionTest.AddFirstToObjectArray | Assets/UdonSharp/Tests/TestScripts/Core/LocalFunctionTest.cs:73-82 | Returns a fresh array one longer than `a`, with `b` first and then every element of `a` shifted by one; `a` is not changed. |
| LocalFunctionTests.LocalFunctionTest.TestObjectArrayArg | Assets/UdonSharp/Tests/TestScripts/Core/LocalFunctionTest.cs:84-97 | The inserted object array is found at index 0, and its element 1 is this behaviour. The assertion passes. |
| LocalFunctionTests.LocalFunctionTest.SetStr | Assets/UdonSharp/Tests/TestScripts/Core/LocalFunctionTest.cs:99-103 | The field holds exactly the string passed. |
| LocalFunctionTests.LocalFunctionTest.TestStringCopy | Assets/UdonSharp/Tests/TestScripts/Core/LocalFunctionTest.cs:118-134 | Each of the four SetStr assertions ("20", "", "Hello", "") passes, and the field ends empty. |
| LocalFunctionTests.LocalFunctionTest.ExecuteTests | Assets/UdonSharp/Tests/TestScripts/Core/LocalFunctionTest.cs:18-26 | With the self reference set, every test passes. The counter ends at 16 and the string field ends empty. |

## Left out

- UdonValues.DefaultOf: `int` and `bool` are the only value types modelled. Public variables
  and array elements of type float, double, long, short, byte, sbyte, uint, ulong, ushort,
  char, decimal, enums and Unity structs (Vector2/3/4, Color, Quaternion and the like) cannot
  be represented. So "null exactly for reference types" holds only over the modelled types;
  growing a `long[]` or `float[]` at line 687 fills zeros, which the model does not cover.
- Inspector drawing (labels, foldouts, indentation, Undo records, scene and prefab dirtying) is
  not modelled. It has no effect on the table beyond what the model states.
- DrawPublicVariableField (line 885) and the per-type widgets behind it (DrawFieldForType,
  line 547) are left out. The field is taken to return the value it is given, so the model
  does not cover user edits through the inspector. IsNormalUnityObject only chooses a widget
  and is left out with them.
- ProgramAsset.UdonSharpProgramAsset.DrawProgramSourceGUI: the runtime-value write-back is not
  modelled. In play mode DrawPublicVariableField reads and returns the behaviour's runtime
  value (lines 927-930 and 997), and DrawPublicVariables stores it once dirty is set (lines
  1099-1105). With runtime values shown, the contract therefore describes the stored values
  only; a repaired symbol gets its runtime value there, not the heap default.
- ValidateObjectReference and the drag-and-drop filtering are left out. `AcceptDrag` receives
  the references that were already accepted, in dragged order.
- The array field's foldout that turns a null array into an empty one (lines 664-668) is left
  out. It runs only after the drag block, so AcceptDrag sees the null array and throws.
- `ArrayEdits.Resize`: a jagged array's rows are modelled as `Value.Array` values. The model
  therefore does not capture that the inspector leaves shared row references out of the new
  slots to avoid aliasing. It does capture which slots keep the default.
- The UdonSharp compiler itself (UdonSharpCompiler) is not part of this model.
  `CompileCsProgram` only receives whether the compile completed or which exception it threw.
  The compiler is built with the asset itself (line 290), so it can write into the asset,
  compile errors included; what it writes, in either outcome, is not modelled.
- The Udon assembler, UdonEditorInterface and the heap factory singletons are left out. The
  assembler is a function of the assembly text and the heap size. The lazily created
  singletons carry no state that the model observes.
- UdonProgram.WfProgram: the assembler is taken to return only programs in which every
  exported symbol has a type and an address inside the heap template. That is the heap
  layout's own contract; a program breaking it would throw at lines 283 and 969, and that
  exception is not modelled.
- CompileAllCsPrograms, ApplyProgram, serialization (OnBeforeSerialize and its counterpart),
  disassembly display and Debug logging are left out. They are editor I/O or calls into code
  outside this model.
- The "Create Script" button's file dialog, template and file writing are left out. Only the
  proposed name (line 384) is modelled. Path.GetFileNameWithoutExtension is taken to have
  been applied already.
- Play-mode runtime values (lines 142-156) are left out. `shouldUseRuntimeValue` is a
  parameter. The interact-text and proximity fields (lines 158-179) are UI only.
- A null public-variable table (line 1074) only draws the compiled defaults. The model treats
  it, like a missing program (line 1017), as changing nothing.
- The `TryAddVariable` failure at line 1084 and the `TrySetVariableValue` fallback at line
  1105 cannot happen against the table model. `VisitExported` proves that they are not taken.
- The `IUdonVariableTable` implementation is not part of this model. `UdonVariableTable`
  gives its five operations the behaviour their names and call sites imply. A stored value of
  `None` stands for a variable whose value cannot be read.
- The HideInInspector attribute lookup through reflection is reduced to a flag on
  `FieldDefinition`.
- `TestStringCopy`: the interpolated strings are given as the values they evaluate to. The
  two assertions on the local `testStr` (lines 109-116) are not modelled, because they test
  C# string interpolation rather than the behaviour.
- LocalFunctionTest's `tester` (IntegrationTestSuite) is not modelled. Each test returns
  whether all of its assertions hold.
- `SendCustomEvent` is modelled as a direct call to `IncrementCounter`. Event dispatch by
  name is not modelled.
- LocalFunctionTests.LocalFunctionTest.TestObjectArrayArg: the cast `(object[])work[0]` becomes a
  check on the value's shape. A failed cast would count as a failed test rather than an
  exception.
