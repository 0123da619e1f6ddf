/** The local-function test behaviour: small methods on C# ints, strings and object arrays,
    and the test cases that check them. Each test returns whether all of its assertions pass. */
module LocalFunctionTests {
  import V = UdonValues

  const TwoTo32 := 0x1_0000_0000

  /** A C# int. */
  newtype Int32 = x: int | -0x8000_0000 <= x < 0x8000_0000

  /** Unchecked C# int arithmetic: the 32-bit two's complement value congruent to `x`. */
  function Wrap(x: int): (r: Int32)
    ensures (r as int - x) % TwoTo32 == 0
    ensures -0x8000_0000 <= x < 0x8000_0000 ==> r as int == x
  {
    ((x + 0x8000_0000) % TwoTo32 - 0x8000_0000) as Int32
  }

  /** Two 32-bit values congruent modulo 2^32 are equal. */
  lemma CongruentInt32sAreEqual(x: Int32, y: int)
    requires (x as int - y) % TwoTo32 == 0
    ensures -0x8000_0000 <= y < 0x8000_0000 ==> x as int == y
  {
  }

  class LocalFunctionTest {
    var eventCounter: Int32
    var selfReference: LocalFunctionTest?
    var targetVal: string

    constructor ()
      ensures eventCounter == 0 && selfReference == null && targetVal == ""
    {
      eventCounter := 0;
      selfReference := null;
      targetVal := "";
    }

    function GetCountAmount(): (r: Int32)
      ensures r == 4
    {
      4
    }

    /** The custom event: adds GetCountAmount() to the counter. */
    method IncrementCounter()
      modifies this`eventCounter
      ensures eventCounter == Wrap(old(eventCounter) as int + GetCountAmount() as int)
    {
      eventCounter := Wrap(eventCounter as int + GetCountAmount() as int);
    }

    /** Three events sent to itself and one through its self reference, each delivered as a
        direct call to IncrementCounter, count 12 and then 16. */
    method TestCustomEvents() returns (passed: bool)
      requires selfReference == this
      modifies this`eventCounter
      ensures passed && eventCounter == 16
    {
      eventCounter := 0;
      IncrementCounter();
      IncrementCounter();
      IncrementCounter();
      var customEventCalls := eventCounter == 12;
      selfReference.IncrementCounter();
      var referenceCustomEventCalls := eventCounter == 16;
      passed := customEventCalls && referenceCustomEventCalls;
    }

    /** Increments its own copy of `a`, then adds `b`: a + 1 + b modulo 2^32. */
    function AddIntegers(a: Int32, b: Int32): (r: Int32)
      ensures (r as int - (a as int + 1 + b as int)) % TwoTo32 == 0
      ensures -0x8000_0000 <= a as int + 1 + b as int < 0x8000_0000 ==> r as int == a as int + 1 + b as int
    {
      var a' := Wrap(a as int + 1);
      var r := Wrap(a' as int + b as int);
      assert (r as int - (a as int + 1 + b as int)) % TwoTo32 == 0 by {
        assert r as int - (a as int + 1 + b as int) == (r as int - (a' as int + b as int)) + (a' as int - (a as int + 1));
      }
      CongruentInt32sAreEqual(r, a as int + 1 + b as int);
      r
    }

    /** The argument is passed by value: the caller's variable keeps its value. */
    method TestFunctionParameters() returns (passed: bool)
      ensures passed
    {
      var a: Int32 := 4;
      var addResult := AddIntegers(a, 6);
      passed := addResult == 11 && a == 4;
    }

    /** a + b modulo 2^32. */
    function AddIntegers2(a: Int32, b: Int32): (r: Int32)
      ensures (r as int - (a as int + b as int)) % TwoTo32 == 0
      ensures -0x8000_0000 <= a as int + b as int < 0x8000_0000 ==> r as int == a as int + b as int
    {
      Wrap(a as int + b as int)
    }

    /** Two calls used inside one expression: 6 + 15 == 21. */
    method TestIntermediateReturn() returns (passed: bool)
      ensures passed
    {
      var result := Wrap(AddIntegers2(2, 4) as int + AddIntegers2(6, 9) as int);
      passed := result == 21;
    }

    /** A new array one longer than `a`, holding `b` and then the elements of `a`; `a` itself
        is not written (nothing may be modified). */
    method AddFirstToObjectArray(a: array<V.Value>, b: V.Value) returns (n: array<V.Value>)
      ensures fresh(n)
      ensures n.Length == a.Length + 1 && n[0] == b
      ensures forall i :: 0 <= i < a.Length ==> n[i + 1] == a[i]
    {
      n := new V.Value[a.Length + 1](_ => V.Null);
      var i := 0;
      while i != a.Length
        invariant 0 <= i <= a.Length
        invariant forall k :: 0 <= k < i ==> n[k + 1] == a[k]
      {
        n[i + 1] := a[i];
        i := i + 1;
      }
      n[0] := b;
    }

    /** An object array put in front of an array stays retrievable, with this behaviour at its
        index 1. */
    method TestObjectArrayArg() returns (passed: bool)
      ensures passed
    {
      var work := new V.Value[4](_ => V.Null);
      var tempData := V.Null;
      var level := V.Ref(this);
      work := AddFirstToObjectArray(work, V.Array([tempData, level]));
      var insertedVal := work[0];
      passed := insertedVal.Array? && |insertedVal.elements| > 1 && insertedVal.elements[1] == V.Ref(this);
    }

    method SetStr(val: string)
      modifies this`targetVal
      ensures targetVal == val
    {
      targetVal := val;
    }

    /** Setting the field through a parameter, including the empty string; the interpolated
        arguments are passed as the strings they evaluate to. */
    method TestStringCopy() returns (passed: bool)
      modifies this`targetVal
      ensures passed && targetVal == ""
    {
      targetVal := "";
      SetStr("20");
      var interpolationArgumentSet := targetVal == "20";
      SetStr("");
      var interpolationArgumentClear := targetVal == "";
      SetStr("Hello");
      var argumentSet := targetVal == "Hello";
      SetStr("");
      var argumentClear := targetVal == "";
      passed := interpolationArgumentSet && interpolationArgumentClear && argumentSet && argumentClear;
    }

    /** Runs every test; all of them pass. */
    method ExecuteTests() returns (passed: bool)
      modifies this
      ensures passed && eventCounter == 16 && targetVal == "" && selfReference == this
    {
      selfReference := this;
      var customEvents := TestCustomEvents();
      var functionParameters := TestFunctionParameters();
      var intermediateReturn := TestIntermediateReturn();
      var objectArrayArg := TestObjectArrayArg();
      var stringCopy := TestStringCopy();
      passed := customEvents && functionParameters && intermediateReturn && objectArrayArg && stringCopy;
    }
  }
}
