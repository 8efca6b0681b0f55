/** The allow-list that every table name, column name and sort column must
    pass: the only defence the server has against SQL injection through
    identifiers, which cannot be bound as parameters. */
module Identifier {
  import opened Strings

  /** `c.is_ascii_alphanumeric() || c == '_'`. */
  predicate IsIdentChar(c: char)
  {
    'a' <= c <= 'z' || 'A' <= c <= 'Z' || '0' <= c <= '9' || c == '_'
  }

  /** `name.chars().all(..)`: every character is an ASCII letter, an ASCII
      digit or an underscore. The empty name passes vacuously. */
  function IsValidIdentifier(name: string): (ok: bool)
    ensures ok <==> forall i :: 0 <= i < |name| ==> IsIdentChar(name[i])
  {
    |name| == 0 || (IsIdentChar(name[0]) && IsValidIdentifier(name[1..]))
  }

  /** Every name in `names` passes the allow-list. */
  predicate AllValid(names: seq<string>)
  {
    forall i :: 0 <= i < |names| ==> IsValidIdentifier(names[i])
  }

  /** A name that holds a quote, a statement separator, a space, a comment
      introducer or any other SQL punctuation is refused. */
  lemma RejectsSqlPunctuation(name: string, i: nat)
    requires i < |name|
    requires name[i] in {';', ' ', '-', '\'', '"', '/', '*', '(', ')', ',', '=', '?', '.'}
    ensures !IsValidIdentifier(name)
  {
  }

  lemma EmptyIsValid()
    ensures IsValidIdentifier("")
  {
  }

  /** A valid identifier holds no character outside the allow-list, so it
      adds nothing to the count of any such character in a statement. */
  lemma {:induction false} ValidHasNoOther(name: string, c: char)
    requires IsValidIdentifier(name) && !IsIdentChar(c)
    ensures Count(name, c) == 0
  {
    if |name| > 0 {
      ValidHasNoOther(name[1..], c);
    }
  }

  lemma ValidConcat(a: string, b: string)
    ensures IsValidIdentifier(a + b) <==> IsValidIdentifier(a) && IsValidIdentifier(b)
  {
    if IsValidIdentifier(a) && IsValidIdentifier(b) {
      forall i | 0 <= i < |a + b| ensures IsIdentChar((a + b)[i]) {
        if i >= |a| { assert (a + b)[i] == b[i - |a|]; }
      }
    }
    if IsValidIdentifier(a + b) {
      forall i | 0 <= i < |b| ensures IsIdentChar(b[i]) {
        assert (a + b)[|a| + i] == b[i];
      }
      forall i | 0 <= i < |a| ensures IsIdentChar(a[i]) {
        assert (a + b)[i] == a[i];
      }
    }
  }

  lemma ExamplesAccepted()
    ensures IsValidIdentifier("students") && IsValidIdentifier("Col_9")
  {
    assert forall i :: 0 <= i < |"students"| ==> IsIdentChar("students"[i]);
    assert forall i :: 0 <= i < |"Col_9"| ==> IsIdentChar("Col_9"[i]);
  }

  lemma ExamplesRejected()
    ensures !IsValidIdentifier("x;DROP")
    ensures !IsValidIdentifier("age--") && !IsValidIdentifier("o'brien")
  {
    RejectsSqlPunctuation("x;DROP", 1);
    RejectsSqlPunctuation("age--", 3);
    RejectsSqlPunctuation("o'brien", 1);
  }
}
