/** An UdonBehaviour's public variable table, with the operations the program asset calls on it. */
module VariableTable {
  import opened UdonValues

  /** One public variable: the type it was declared with and, if it has one, its value. */
  datatype Variable = Variable(declaredType: UType, value: Option<Value>)

  class UdonVariableTable {
    var variables: map<string, Variable>

    constructor (initial: map<string, Variable>)
      ensures variables == initial
    {
      variables := initial;
    }

    function TryGetVariableType(symbol: string): (t: Option<UType>)
      reads this
      ensures t.Some? <==> symbol in variables
      ensures t.Some? ==> t.value == variables[symbol].declaredType
    {
      if symbol in variables then Some(variables[symbol].declaredType) else None
    }

    function TryGetVariableValue(symbol: string): (v: Option<Value>)
      reads this
      ensures v.Some? <==> symbol in variables && variables[symbol].value.Some?
      ensures v.Some? ==> v == variables[symbol].value
    {
      if symbol in variables then variables[symbol].value else None
    }

    method RemoveVariable(symbol: string)
      modifies this
      ensures variables == old(variables) - {symbol}
    {
      variables := variables - {symbol};
    }

    /** Adds a variable unless the symbol is already present. */
    method TryAddVariable(symbol: string, variable: Variable) returns (added: bool)
      modifies this
      ensures added <==> symbol !in old(variables)
      ensures variables == if added then old(variables)[symbol := variable] else old(variables)
    {
      added := symbol !in variables;
      if added {
        variables := variables[symbol := variable];
      }
    }

    /** Stores a value for a symbol that is present, keeping its declared type. */
    method TrySetVariableValue(symbol: string, value: Value) returns (stored: bool)
      modifies this
      ensures stored <==> symbol in old(variables)
      ensures variables == if stored
        then old(variables)[symbol := Variable(old(variables)[symbol].declaredType, Some(value))]
        else old(variables)
    {
      stored := symbol in variables;
      if stored {
        variables := variables[symbol := Variable(variables[symbol].declaredType, Some(value))];
      }
    }
  }
}
