/** The compiled program as the program asset consumes it: symbol table, heap template and
    entry points. The compiler and the assembler that produce it are outside this model. */
module UdonProgram {
  import opened UdonValues

  newtype UInt32 = x: int | 0 <= x < 0x1_0000_0000

  /** Exported symbol names in table order, with each symbol's type and heap address. */
  datatype SymbolTable = SymbolTable(
    exportedSymbols: seq<string>,
    symbolTypes: map<string, UType>,
    addresses: map<string, nat>)

  /** An assembled program: its symbol table, heap template and exported entry points. */
  datatype Program = Program(symbolTable: SymbolTable, heap: seq<Value>, entryPoints: seq<string>)

  /** Every exported symbol has a type and an address inside the heap template. */
  predicate WellFormed(p: Program)
  {
    forall s :: s in p.symbolTable.exportedSymbols ==>
      s in p.symbolTable.symbolTypes && s in p.symbolTable.addresses &&
      p.symbolTable.addresses[s] < |p.heap|
  }

  /** The programs the assembler hands back. */
  type WfProgram = p: Program | WellFormed(p)
    witness Program(SymbolTable([], map[], map[]), [], [])

  /** The exported symbols as a set (the HashSet built from GetExportedSymbols). */
  function Exported(p: Program): (r: set<string>)
  {
    set s | s in p.symbolTable.exportedSymbols
  }

  /** GetSymbolType of an exported symbol. */
  function SymbolType(p: WfProgram, symbol: string): (r: UType)
    requires symbol in Exported(p)
  {
    p.symbolTable.symbolTypes[symbol]
  }

  /** Heap.GetHeapVariable(SymbolTable.GetAddressFromSymbol(symbol)): the compiled default. */
  function HeapDefault(p: WfProgram, symbol: string): (r: Value)
    requires symbol in Exported(p)
  {
    p.heap[p.symbolTable.addresses[symbol]]
  }

  /** A thrown exception: `message` is Exception.Message, `text` is Exception.ToString(). */
  datatype Exception = Exception(message: string, text: string)

  /** What the Udon assembler does with an assembly text. */
  datatype AssemblyOutcome = Assembled(program: WfProgram) | AssemblyFailed(error: Exception)

  /** The Udon editor interface's Assemble, given the factory heap size. */
  type Assembler = (string, UInt32) -> AssemblyOutcome

  /** What a run of UdonSharpCompiler.Compile does, seen from the asset. */
  datatype CompilerRun = Completes | Throws(error: Exception)

  /** Per-field compiler metadata; only the HideInInspector attribute matters here. */
  datatype FieldDefinition = FieldDefinition(hideInInspector: bool)
}
