/**
  The expressions the repository's test suite (test_calc.py:9-35) checks,
  as instances of the worked families, and the failures it expects; then
  behaviours of the source the suite does not exercise: a tab that hides
  adjacent operators, free spacing, and a literal with a dot. Raising to
  a power is a parameter of the model, so the cases that use `^` assume
  the values of the powers they need.
 */
module SuiteCases {
  import opened Syntax
  import opened Validation
  import opened Postfix
  import opened EvaluationProperties
  import opened Calculator
  import opened WorkedCases
  import opened Expressions

  // ---------------------------------------------------------------------
  // Values

  lemma TwoPlusTwo(pow: (real, real) -> real)
    ensures Calculate("2 + 2", pow) == Value(4.0)
  {
    assert "2 + 2" == Spaced(NatText(2), Plus, NatText(2));
    CalculateBinary(2, Plus, 2, pow);
  }

  lemma FiveMinusThree(pow: (real, real) -> real)
    ensures Calculate("5 - 3", pow) == Value(2.0)
  {
    assert "5 - 3" == Spaced(NatText(5), Minus, NatText(3));
    CalculateBinary(5, Minus, 3, pow);
  }

  lemma FourTimesThree(pow: (real, real) -> real)
    ensures Calculate("4 * 3", pow) == Value(12.0)
  {
    assert "4 * 3" == Spaced(NatText(4), Times, NatText(3));
    CalculateBinary(4, Times, 3, pow);
  }

  lemma TenOverTwo(pow: (real, real) -> real)
    ensures Calculate("10 / 2", pow) == Value(5.0)
  {
    assert "10 / 2" == Spaced(NatText(10), Divide, NatText(2));
    CalculateBinary(10, Divide, 2, pow);
  }

  /** Multiplication binds tighter than addition. */
  lemma ProductFirst(pow: (real, real) -> real)
    ensures Calculate("2 + 3 * 4", pow) == Value(14.0)
  {
    assert "2 + 3 * 4" == Spaced(NatText(2), Plus, Spaced(NatText(3), Times, NatText(4)));
    CalculateChain(2, Plus, 3, Times, 4, pow);
  }

  /** Parentheses override precedence. */
  lemma GroupFirst(pow: (real, real) -> real)
    ensures Calculate("(2 + 3) * 4", pow) == Value(20.0)
  {
    assert "(2 + 3) * 4" == Grouped(NatText(2), Plus, NatText(3), Times, NatText(4));
    CalculateGrouped(2, Plus, 3, Times, 4, pow);
  }

  lemma TwoCubed(pow: (real, real) -> real)
    requires pow(2.0, 3.0) == 8.0
    ensures Calculate("2 ^ 3", pow) == Value(8.0)
  {
    assert "2 ^ 3" == Spaced(NatText(2), Power, NatText(3));
    CalculateBinary(2, Power, 3, pow);
  }

  /** Raising to a power binds tighter than addition. */
  lemma PowerFirst(pow: (real, real) -> real)
    requires pow(3.0, 2.0) == 9.0
    ensures Calculate("2 + 3 ^ 2", pow) == Value(11.0)
  {
    assert "2 + 3 ^ 2" == Spaced(NatText(2), Plus, Spaced(NatText(3), Power, NatText(2)));
    CalculateChain(2, Plus, 3, Power, 2, pow);
  }

  /** Two powers in a row group to the left, like every other pair of
      operators of equal precedence. */
  lemma PowersGroupLeft(pow: (real, real) -> real)
    ensures Calculate("2 ^ 3 ^ 2", pow) == Value(pow(pow(2.0, 3.0), 2.0))
  {
    assert "2 ^ 3 ^ 2" == Spaced(NatText(2), Power, Spaced(NatText(3), Power, NatText(2)));
    CalculateChain(2, Power, 3, Power, 2, pow);
  }

  // ---------------------------------------------------------------------
  // Failures

  lemma FiveOverZero(pow: (real, real) -> real)
    ensures Calculate("5 / 0", pow) == CalculationError(DivisionByZero)
  {
    assert "5 / 0" == Spaced(NatText(5), Divide, NatText(0));
    CalculateBinary(5, Divide, 0, pow);
  }

  lemma EmptyInput(pow: (real, real) -> real)
    ensures Calculate("", pow) == CalculationError(EmptyExpression)
  {
  }

  lemma BlankInput(pow: (real, real) -> real)
    ensures Calculate("   ", pow) == CalculationError(EmptyExpression)
  {
    assert AllWhitespace("   ");
  }

  lemma DoubledOperator(pow: (real, real) -> real)
    ensures Calculate("2 + + 3", pow) == CalculationError(ConsecutiveOperators)
  {
    assert "2 + + 3" == Spaced("2", Plus, [Plus.Symbol()] + ([' '] + "3"));
    ValidateDoubled("2", Plus, Plus, "3");
  }

  lemma UnclosedParen(pow: (real, real) -> real)
    ensures Calculate("(2 + 3", pow) == CalculationError(UnbalancedParentheses)
  {
    assert "(2 + 3" == ['('] + Spaced("2", Plus, "3");
    RpnUnclosed("2", Plus, "3");
  }

  lemma UnopenedParen(pow: (real, real) -> real)
    ensures Calculate("2 + )3", pow) == CalculationError(UnbalancedParentheses)
  {
    assert "2 + )3" == Spaced("2", Plus, ")3");
    assert ")3" == [')'] + "3";
    RpnStrayClose("2", Plus, "3");
  }

  /** An expression opening with an operator is not refused as a
      calculation error: the failure escapes the entry point. */
  lemma LeadingSign(pow: (real, real) -> real)
    ensures Calculate("+ 2", pow) == Uncaught(LeadingOperator)
  {
    var s := "+ 2";
    assert !AllWhitespace(s) by {
      assert !IsWhitespace(s[0]);
    }
  }

  /** Only plain spaces are skipped when the validator looks for adjacent
      operators: a tab between two operators hides them from each other,
      and the expression fails later, in the evaluator, for want of an
      operand. */
  lemma TabBetweenOperators(pow: (real, real) -> real)
    ensures Calculate("2 + \t+ 3", pow) == CalculationError(InsufficientOperands)
  {
    assert "2 + \t+ 3" == Hidden("2", Plus, '\t', Plus, "3");
    CalculateHidden("2", Plus, '\t', Plus, "3", pow);
  }

  /** With a division after the tab, the division runs first in the
      evaluator, and dividing by zero is what is reported. */
  lemma TabBeforeDivision(pow: (real, real) -> real)
    ensures Calculate("2 + \t/ 0", pow) == CalculationError(DivisionByZero)
  {
    assert "2 + \t/ 0" == Hidden("2", Plus, '\t', Divide, "0");
    CalculateHidden("2", Plus, '\t', Divide, "0", pow);
    assert Apply(Divide, V("2"), V("0"), pow).Err? by {
      assert V("0") == 0.0 by {
        assert "0"[..0] == [];
      }
    }
  }

  /** Spaces are optional and may be repeated: the grouped product reads
      the same with none around `*` and two around `+`. */
  lemma SpacingIgnored(pow: (real, real) -> real)
    ensures Calculate("(2  +  3)*4", pow) == Value(20.0)
  {
    var e := Bin(Times, Group(Bin(Plus, Pad(Lit("2"), 0, 2), Pad(Lit("3"), 2, 0))), Lit("4"));
    SpacingTree(e);
    SpacingValue(e, pow);
    CalculateSpell(e, pow);
  }

  /** The tree of `(2  +  3)*4`: its text and its shape. */
  lemma SpacingTree(e: Expr)
    requires e == Bin(Times, Group(Bin(Plus, Pad(Lit("2"), 0, 2), Pad(Lit("3"), 2, 0))), Lit("4"))
    ensures Spell(e) == "(2  +  3)*4" && WellFormed(e)
  {
  }

  /** The value of that tree. */
  lemma SpacingValue(e: Expr, pow: (real, real) -> real)
    requires e == Bin(Times, Group(Bin(Plus, Pad(Lit("2"), 0, 2), Pad(Lit("3"), 2, 0))), Lit("4"))
    ensures Readable(e) && Eval(e, pow) == Ok(20.0)
  {
    WholeLiterals();
    assert Eval(Group(Bin(Plus, Pad(Lit("2"), 0, 2), Pad(Lit("3"), 2, 0))), pow) == Ok(5.0);
  }

  /** The one-digit literals used here and their values. */
  lemma WholeLiterals()
    ensures IsNumeric("2") && IsNumeric("3") && IsNumeric("4")
    ensures DecimalValue("2") == 2.0 && DecimalValue("3") == 3.0 && DecimalValue("4") == 4.0
  {
    assert "2"[..0] == [] && "3"[..0] == [] && "4"[..0] == [];
  }

  /** `2.5` is read as two and a half. */
  lemma HalfLiteral()
    ensures IsNumeric("2.5") && DecimalValue("2.5") == 2.5
  {
    assert DotIndex("2.5") == 1;
    assert "2.5"[..1] == "2" && "2.5"[2..] == "5" && "2"[..0] == [] && "5"[..0] == [];
  }

  /** A literal with a dot is read with its fraction. */
  lemma HalfTimesFour(pow: (real, real) -> real)
    ensures Calculate("2.5*4", pow) == Value(10.0)
  {
    var e := Bin(Times, Lit("2.5"), Lit("4"));
    HalfTree(e);
    HalfValue(e, pow);
    CalculateSpell(e, pow);
  }

  /** The tree of `2.5*4`: its text and its shape. */
  lemma HalfTree(e: Expr)
    requires e == Bin(Times, Lit("2.5"), Lit("4"))
    ensures Spell(e) == "2.5*4" && WellFormed(e)
  {
  }

  /** The value of that tree. */
  lemma HalfValue(e: Expr, pow: (real, real) -> real)
    requires e == Bin(Times, Lit("2.5"), Lit("4"))
    ensures Readable(e) && Eval(e, pow) == Ok(10.0)
  {
    WholeLiterals();
    HalfLiteral();
  }
}
