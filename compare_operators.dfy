/** The leading comparison operator both revisions of
    `NumberCompareValidator` recognise: the PCRE group
    `(<>|>=|>|<=|<|=)`, whose alternatives are tried left to right. */
module CompareOperators {
  import opened Wrappers

  /** The alternatives, in the order the group lists them. */
  const Operators: seq<string> := ["<>", ">=", ">", "<=", "<", "="]

  predicate IsOperatorChar(c: char)
  {
    c == '<' || c == '>' || c == '='
  }

  /** A comparison character at position `k` of `s`. */
  predicate OperatorCharAt(s: string, k: int)
  {
    0 <= k < |s| && IsOperatorChar(s[k])
  }

  /** `p` is the alternative at `k`, the value starts with it, and it starts
      with none of the alternatives before `k`. */
  predicate FirstPrefixAt(s: string, alternatives: seq<string>, k: int, p: string)
  {
    0 <= k < |alternatives| && alternatives[k] == p && p <= s &&
    forall j :: 0 <= j < k ==> !(alternatives[j] <= s)
  }

  /** The first of `alternatives` that `s` starts with; `FirstPrefixIsFirst`
      shows it is the first in order. */
  function FirstPrefix(s: string, alternatives: seq<string>): (r: Option<string>)
    ensures r.Some? ==> r.value in alternatives && r.value <= s
    ensures r.None? ==> forall o :: o in alternatives ==> !(o <= s)
    decreases |alternatives|
  {
    if alternatives == [] then None
    else if alternatives[0] <= s then Some(alternatives[0])
    else
      assert forall o :: o in alternatives && o != alternatives[0] ==> o in alternatives[1..];
      FirstPrefix(s, alternatives[1..])
  }

  /** An ordered alternation picks the earliest alternative that matches:
      what `FirstPrefix` finds sits at an index before which nothing
      matches, and whatever sits at such an index is what it finds. */
  lemma {:induction false} FirstPrefixIsFirst(s: string, alternatives: seq<string>)
    ensures FirstPrefix(s, alternatives).Some? ==>
      exists k :: FirstPrefixAt(s, alternatives, k, FirstPrefix(s, alternatives).value)
    ensures forall k, p :: FirstPrefixAt(s, alternatives, k, p) ==> FirstPrefix(s, alternatives) == Some(p)
    decreases |alternatives|
  {
    if alternatives == [] {
    } else if alternatives[0] <= s {
      assert FirstPrefixAt(s, alternatives, 0, alternatives[0]);
    } else {
      var rest := alternatives[1..];
      FirstPrefixIsFirst(s, rest);
      if FirstPrefix(s, rest).Some? {
        var k :| FirstPrefixAt(s, rest, k, FirstPrefix(s, rest).value);
        forall j | 0 <= j < k + 1 ensures !(alternatives[j] <= s) {
          if j > 0 {
            assert alternatives[j] == rest[j - 1];
          }
        }
        assert FirstPrefixAt(s, alternatives, k + 1, FirstPrefix(s, rest).value);
      }
      forall k, p | FirstPrefixAt(s, alternatives, k, p) ensures FirstPrefix(s, alternatives) == Some(p) {
        assert k > 0;
        assert FirstPrefixAt(s, rest, k - 1, p) by {
          forall j | 0 <= j < k - 1 ensures !(rest[j] <= s) {
            assert rest[j] == alternatives[j + 1];
          }
        }
      }
    }
  }

  /** The operator at position `i`, decided on the characters at `i` and
      `i + 1`; `LeadingOperatorIsFirstPrefix` shows this is what the
      ordered alternation matches there. */
  function OperatorAt(s: string, i: nat): (r: Option<string>)
    requires i <= |s|
    ensures r.Some? ==> i + |r.value| <= |s|
  {
    if i == |s| || !IsOperatorChar(s[i]) then None
    else if i + 1 < |s| && s[i] == '<' && s[i + 1] == '>' then Some("<>")
    else if i + 1 < |s| && s[i] == '>' && s[i + 1] == '=' then Some(">=")
    else if s[i] == '>' then Some(">")
    else if i + 1 < |s| && s[i] == '<' && s[i + 1] == '=' then Some("<=")
    else if s[i] == '<' then Some("<")
    else Some("=")
  }

  /** The operator a value starts with. */
  function LeadingOperator(s: string): Option<string>
  {
    OperatorAt(s, 0)
  }

  /** The operator at `i` is the one the rest of the value starts with. */
  lemma OperatorAtIsLeading(s: string, i: nat)
    requires i <= |s|
    ensures OperatorAt(s, i) == LeadingOperator(s[i..])
  {
    if i < |s| {
      assert s[i..][0] == s[i];
    }
    if i + 1 < |s| {
      assert s[i..][1] == s[i + 1];
    }
  }

  /** The case table is the regular expression's choice: the first
      alternative, in the group's order, that the value starts with. */
  lemma LeadingOperatorIsFirstPrefix(s: string)
    ensures LeadingOperator(s) == FirstPrefix(s, Operators)
  {
    var alts := Operators;
    assert alts[1..][1..][1..][1..][1..][1..] == [];
    if |s| >= 2 {
      assert "<>" <= s <==> s[0] == '<' && s[1] == '>';
      assert ">=" <= s <==> s[0] == '>' && s[1] == '=';
      assert "<=" <= s <==> s[0] == '<' && s[1] == '=';
    }
    if |s| >= 1 {
      assert ">" <= s <==> s[0] == '>';
      assert "<" <= s <==> s[0] == '<';
      assert "=" <= s <==> s[0] == '=';
    }
  }

  /** The alternation finds an operator exactly when the value starts with
      an operator character, and what it finds is the longest operator the
      value starts with: every other operator prefix is a prefix of it. */
  lemma LeadingOperatorIsLongest(s: string)
    ensures LeadingOperator(s).None? <==> |s| == 0 || !IsOperatorChar(s[0])
    ensures LeadingOperator(s).Some? ==>
      LeadingOperator(s).value in Operators && LeadingOperator(s).value <= s &&
      forall o :: o in Operators && o <= s ==> o <= LeadingOperator(s).value
  {
    LeadingOperatorIsFirstPrefix(s);
  }

  /** An operator followed by a character that cannot extend it (or by
      nothing) is matched whole. */
  lemma LeadingOperatorFollowedBy(op: string, rest: string)
    requires op in Operators
    requires rest == [] || !IsOperatorChar(rest[0])
    ensures LeadingOperator(op + rest) == Some(op)
  {
    assert (op + rest)[0] == op[0];
    assert |op| == 2 ==> (op + rest)[1] == op[1];
    assert |op| == 1 && |rest| > 0 ==> (op + rest)[1] == rest[0];
  }
}
