/** Removing the backslashes of a JSON text that was sent inside a JSON string: remove_escape_char
    (esp_gateway_param_parser.c). Text is what precedes the NUL. */
module JsonEscape {
  import opened Basics
  import opened Newlines

  /** What is left without the backslashes; the character after one is copied without looking at it.
      None: that character is the terminator, and the source runs past the end of the text. */
  function Unslashed(t: string): Option<string> {
    if t == [] then Some([])
    else if t[0] != '\\' then Prepend([t[0]], Unslashed(t[1..]))
    else if |t| == 1 then None
    else Prepend([t[1]], Unslashed(t[2..]))
  }

  /** The text with a backslash in front of every marked character. */
  function Slashed(s: string, marks: seq<bool>): string
    requires |marks| == |s|
  {
    if s == [] then []
    else (if marks[0] then ['\\', s[0]] else [s[0]]) + Slashed(s[1..], marks[1..])
  }

  /** Every backslash is marked; other characters may be, as a quote is. */
  predicate Covers(marks: seq<bool>, s: string) {
    |marks| == |s| && forall i :: 0 <= i < |s| && s[i] == '\\' ==> marks[i]
  }

  /** Whatever else is escaped, a text whose backslashes are all escaped comes back. */
  lemma {:induction false} UnslashedUndoes(s: string, marks: seq<bool>)
    requires Covers(marks, s)
    ensures Unslashed(Slashed(s, marks)) == Some(s)
  {
    if s == [] {
    } else {
      var t := Slashed(s, marks);
      UnslashedUndoes(s[1..], marks[1..]);
      assert t[if marks[0] then 2 else 1..] == Slashed(s[1..], marks[1..]);
      assert [s[0]] + s[1..] == s;
    }
  }

  /** And nothing else does: a text from which s is left is s with such backslashes. */
  lemma {:induction false} UnslashedOnly(t: string) returns (marks: seq<bool>)
    requires Unslashed(t).Some?
    ensures Covers(marks, Unslashed(t).value) && Slashed(Unslashed(t).value, marks) == t
  {
    if t == [] {
      marks := [];
    } else {
      var k := if t[0] == '\\' then 2 else 1;
      var rest := UnslashedOnly(t[k..]);
      marks := [k == 2] + rest;
      var s, s' := Unslashed(t).value, Unslashed(t[k..]).value;
      assert s == [t[k - 1]] + s' && s[1..] == s' && marks[1..] == rest;
      forall i | 0 <= i < |s| && s[i] == '\\' ensures marks[i] {
        assert i > 0 ==> s[i] == s'[i - 1];
      }
    }
  }

  /** When reading has come to i and writing to j, the rest of the text gives the rest of u. */
  ghost predicate Reached(t: string, u: string, i: nat, j: nat) {
    i <= |t| && j <= |u| && Unslashed(t[i..]) == Some(u[j..])
  }

  lemma {:induction false} UnslashTurn(t: string, u: string, i: nat, j: nat)
    requires i < |t| && Reached(t, u, i, j)
    ensures var k := if t[i] == '\\' then i + 1 else i;
            k < |t| && j < |u| && u[j] == t[k] && Reached(t, u, k + 1, j + 1)
  {
    var n := if t[i] == '\\' then 2 else 1;
    assert t[i..][n..] == t[i + n..];
    RestBegins(u, j, [t[i + n - 1]], Unslashed(t[i + n..]));
    assert u[j + 0] == t[i + n - 1];
  }

  lemma {:induction false} UnslashedNoNul(t: string)
    requires '\0' !in t && Unslashed(t).Some?
    ensures '\0' !in Unslashed(t).value
  {
    if t == [] {
    } else {
      UnslashedNoNul(t[if t[0] != '\\' then 1 else 2..]);
    }
  }

  /** remove_escape_char, in place. */
  method RemoveEscapeChar(str: array<char>, ghost t: string)
    requires HoldsText(str[..], t) && Unslashed(t).Some?
    modifies str
    ensures HoldsText(str[..], Unslashed(t).value)
  {
    ghost var u := Unslashed(t).value;
    UnslashedNoNul(t);
    var i, j := 0, 0;
    assert t[0..] == t && u[0..] == u && t[|t|..] == [];
    assert forall k :: 0 <= k < |t| ==> str[k] == str[..][k] == t[k] != '\0';
    while str[i] != '\0'
      invariant j <= i <= |t| && Reached(t, u, i, j)
      invariant forall k :: 0 <= k < j ==> str[k] == u[k]
      invariant forall k :: i <= k < |t| ==> str[k] == t[k]
      invariant str[|t|] == '\0'
      decreases |t| - i
    {
      UnslashTurn(t, u, i, j);
      if str[i] == '\\' {
        i := i + 1;
      }
      str[j] := str[i];
      j := j + 1;
      i := i + 1;
    }
    assert u[j..] == [];
    str[j] := '\0';
  }
}
