/** Newline escaping of PEM text: escape_new_line and unescape_new_line (esp_rmaker_claim.c) and
    deformat_cert (app_rmaker_matter_controller_api.c). Text is what precedes the NUL. */
module Newlines {
  import opened Basics
  import ClaimProtocol

  const MAX_CSR_SIZE := 1024

  // ---- Specifications ----

  /** The text without one final newline. */
  function StripFinal(s: string): string {
    if s != [] && s[|s| - 1] == '\n' then s[..|s| - 1] else s
  }

  /** Exactly one newline is taken off the end of a text, and from nowhere else. */
  lemma {:induction false} StripFinalOnly(s: string)
    ensures StripFinal(s + "\n") == s
    ensures s == [] || s[|s| - 1] != '\n' ==> StripFinal(s) == s
  {
  }

  function Escape(s: string): string {
    if s == [] then []
    else if s[0] == '\n' then "\\n" + Escape(s[1..])
    else [s[0]] + Escape(s[1..])
  }

  function Deformat(t: string): string {
    if t == [] then []
    else if t[0] == '\\' && |t| > 1 && t[1] == 'n' then "\n" + Deformat(t[2..])
    else [t[0]] + Deformat(t[1..])
  }

  /** unescape_new_line copies the character after a backslash, and also the one after a translated
      newline, without looking at it. None: that character is the terminator, and the source runs
      past the end of the text. */
  function Unescape(t: string): Option<string> {
    if t == [] then Some([])
    else if t[0] != '\\' then Prepend([t[0]], Unescape(t[1..]))
    else if |t| == 1 then None
    else if t[1] != 'n' then Prepend([t[1]], Unescape(t[2..]))
    else if |t| == 2 then None
    else Prepend(['\n', t[2]], Unescape(t[3..]))
  }

  function Prepend(p: string, t: Option<string>): Option<string> {
    if t.None? then None else Some(p + t.value)
  }

  // ---- Length ----

  function Newlines(s: string): nat {
    if s == [] then 0 else (if s[0] == '\n' then 1 else 0) + Newlines(s[1..])
  }

  /** Escaping adds one character per newline, so the escaped CSR and its terminator fit the csr
      field exactly when length plus newlines is below its size; the payload always has room. */
  lemma {:induction false} EscapeLength(s: string)
    ensures |Escape(s)| == |s| + Newlines(s) <= 2 * |s|
    ensures |Escape(s)| + 1 <= MAX_CSR_SIZE <==> |s| + Newlines(s) < MAX_CSR_SIZE
  {
    if s == [] {
    } else {
      EscapeLength(s[1..]);
    }
  }

  // ---- deformat_cert undoes the escaping exactly on texts without a literal "\n" pair ----

  ghost predicate NoPair(s: string) {
    forall i :: 0 <= i < |s| - 1 ==> !(s[i] == '\\' && s[i + 1] == 'n')
  }

  lemma {:induction false} DeformatOfEscape(s: string)
    ensures Deformat(Escape(s)) == Deformat(s)
  {
    if s == [] {
    } else {
      var t := Escape(s);
      DeformatOfEscape(s[1..]);
      if s[0] == '\n' {
        assert t[2..] == Escape(s[1..]);
      } else {
        assert t[1..] == Escape(s[1..]);
        if s[0] == '\\' && |s| > 1 && s[1] == 'n' {
          DeformatOfEscape(s[2..]);
          assert s[1..][1..] == s[2..];
          assert t[2..] == Escape(s[1..])[1..] == Escape(s[2..]);
        }
      }
    }
  }

  lemma {:induction false} DeformatFixes(s: string)
    ensures |Deformat(s)| <= |s|
    ensures Deformat(s) == s <==> NoPair(s)
  {
    if s == [] {
    } else {
      if s[0] == '\\' && |s| > 1 && s[1] == 'n' {
        DeformatFixes(s[2..]);
      } else {
        DeformatFixes(s[1..]);
        assert Deformat(s) == s <==> Deformat(s[1..]) == s[1..];
        assert NoPair(s[1..]) ==> forall i :: 0 < i < |s| - 1 ==> s[i] == s[1..][i - 1];
      }
    }
  }

  /** The round trip through the cloud's text format, with its exact condition. */
  lemma {:induction false} DeformatUndoesEscape(s: string)
    ensures Deformat(Escape(s)) == s <==> NoPair(s)
  {
    DeformatOfEscape(s);
    DeformatFixes(s);
  }

  // ---- unescape_new_line ----

  /** Every newline is followed by a character other than a newline, and a backslash stands only
      directly after a newline. */
  ghost predicate Survives(s: string) {
    && (forall i :: 0 <= i < |s| && s[i] == '\n' ==> i + 1 < |s| && s[i + 1] != '\n')
    && (forall i :: 0 <= i < |s| && s[i] == '\\' ==> i > 0 && s[i - 1] == '\n')
  }

  ghost predicate Slashes(p: string) { p != [] && forall i :: 0 <= i < |p| ==> p[i] == '\\' }

  lemma {:induction false} EscapeHead(s: string)
    requires s != []
    ensures Escape(s)[0] == (if s[0] == '\n' then '\\' else s[0])
    ensures s[0] == '\n' ==> |Escape(s)| >= 2 && Escape(s)[1] == 'n' && Escape(s)[2..] == Escape(s[1..])
    ensures s[0] != '\n' ==> Escape(s)[1..] == Escape(s[1..])
  {
  }

  predicate Begins(t: Option<string>, a: char, b: char) {
    t.None? || (|t.value| >= 2 && t.value[0] == a && t.value[1] == b)
  }

  /** What unescaping does to an escaped text that starts with a newline. */
  lemma {:induction false} UnescapeNewlineHead(s: string)
    requires s != [] && s[0] == '\n'
    ensures |s| == 1 ==> Unescape(Escape(s)) == None
    ensures |s| > 1 && s[1] != '\n' ==>
              Unescape(Escape(s)) == Prepend(['\n', s[1]], Unescape(Escape(s[2..])))
    ensures |s| > 1 && s[1] == '\n' ==>
              Begins(Unescape(Escape(s)), '\n', '\\')
  {
    var t := Escape(s);
    EscapeHead(s);
    if |s| > 1 {
      EscapeHead(s[1..]);
      assert s[1..][1..] == s[2..];
      assert t[3..] == t[2..][1..];
    } else {
      assert Escape(s[1..]) == [];
    }
  }

  /** The same for one that starts with a backslash. */
  lemma {:induction false} UnescapeSlashHead(s: string)
    requires s != [] && s[0] == '\\'
    ensures |s| == 1 ==> Unescape(Escape(s)) == None
    ensures |s| > 1 && s[1] == 'n' ==> Unescape(Escape(s)).None? || Unescape(Escape(s)).value[0] == '\n'
    ensures |s| > 1 && s[1] == '\n' ==>
              Begins(Unescape(Escape(s)), '\\', 'n')
    ensures |s| > 1 && s[1] != '\n' && s[1] != 'n' ==>
              Unescape(Escape(s)) == Prepend([s[1]], Unescape(Escape(s[2..])))
  {
    var t := Escape(s);
    EscapeHead(s);
    if |s| > 1 {
      EscapeHead(s[1..]);
      assert s[1..][1..] == s[2..];
      assert t[2..] == t[1..][1..];
      if s[1] == '\n' {
        assert t[2] == 'n';
      }
    } else {
      assert Escape(s[1..]) == [];
    }
  }

  /** The same for one that starts with any other character. */
  lemma {:induction false} UnescapePlainHead(s: string)
    requires s != [] && s[0] != '\n' && s[0] != '\\'
    ensures Unescape(Escape(s)) == Prepend([s[0]], Unescape(Escape(s[1..])))
  {
    EscapeHead(s);
  }

  lemma {:induction false} SlashesShift(p: string, s: string)
    requires Slashes(p) && |s| > 1 && s[0] == '\\' && s[1] == '\\'
    ensures Slashes(p + ['\\']) && p + s == ['\\'] + (p + ['\\'] + s[2..])
  {
    var r := p + ['\\'] + s[2..];
    assert |p + s| == |['\\'] + r|;
    forall i | 0 <= i < |p + s| ensures (p + s)[i] == (['\\'] + r)[i] {
      if i > |p| + 1 {
        assert r[i - 1] == s[i - |p|];
      }
    }
  }

  lemma {:induction false} SlashesFirst(p: string, s: string)
    requires Slashes(p)
    ensures (p + s)[0] == '\\'
    ensures s != [] && s[0] == '\\' ==> (p + s)[1] == '\\'
  {
  }

  /** Unescaping an escaped text never puts extra backslashes in front of it. */
  lemma {:induction false} NoExtraSlashes(p: string, s: string)
    requires Slashes(p)
    ensures Unescape(Escape(s)) != Some(p + s)
    decreases |s|
  {
    SlashesFirst(p, s);
    if s == [] {
      assert Unescape(Escape(s)) == Some([]);
    } else if s[0] == '\n' {
      UnescapeNewlineHead(s);
    } else if s[0] != '\\' {
      UnescapePlainHead(s);
    } else {
      UnescapeSlashHead(s);
      if |s| > 1 && s[1] == '\\' {
        SlashesShift(p, s);
        NoExtraSlashes(p + ['\\'], s[2..]);
        PrependMatches(['\\'], Unescape(Escape(s[2..])), p + s);
        assert (p + s)[1..] == p + ['\\'] + s[2..];
      }
    }
  }

  lemma {:induction false} PrependMatches(p: string, t: Option<string>, s: string)
    requires |p| <= |s| && p == s[..|p|]
    ensures Prepend(p, t) == Some(s) <==> t == Some(s[|p|..])
  {
    assert s == p + s[|p|..];
    if t.Some? {
      assert (p + t.value)[|p|..] == t.value;
    }
  }

  lemma {:induction false} SlashHeadIsLost(s: string)
    requires s != [] && s[0] == '\\'
    ensures Unescape(Escape(s)) != Some(s) && !Survives(s)
  {
    UnescapeSlashHead(s);
    if |s| > 1 && s[1] == '\\' {
      NoExtraSlashes(['\\'], s[2..]);
      PrependMatches(['\\'], Unescape(Escape(s[2..])), s);
      assert s[1..] == ['\\'] + s[2..];
    }
  }

  /** The exact texts that come back from escape and in-place unescape unchanged. */
  lemma {:induction false} UnescapeUndoesEscape(s: string)
    ensures Unescape(Escape(s)) == Some(s) <==> Survives(s)
    decreases |s|
  {
    if s == [] {
    } else if s[0] == '\\' {
      SlashHeadIsLost(s);
    } else if s[0] == '\n' {
      UnescapeNewlineHead(s);
      if |s| > 1 && s[1] != '\n' {
        UnescapeUndoesEscape(s[2..]);
        SurvivesTail(s, 2);
        PrependMatches(['\n', s[1]], Unescape(Escape(s[2..])), s);
      }
    } else {
      UnescapePlainHead(s);
      UnescapeUndoesEscape(s[1..]);
      SurvivesTail(s, 1);
      PrependMatches([s[0]], Unescape(Escape(s[1..])), s);
    }
  }

  lemma {:induction false} SurvivesTail(s: string, k: nat)
    requires 0 < k <= |s| && s[k - 1] != '\n'
    requires k == 1 ==> s[0] != '\\'
    requires k == 2 ==> s[0] == '\n'
    requires k <= 2
    ensures Survives(s) <==> Survives(s[k..])
  {
    var t := s[k..];
    assert forall i :: k <= i < |s| ==> s[i] == t[i - k];
    if Survives(t) {
      forall i | 0 <= i < |s| && s[i] == '\n' ensures i + 1 < |s| && s[i + 1] != '\n' {
        if i >= k { assert t[i - k] == '\n'; }
      }
      forall i | 0 <= i < |s| && s[i] == '\\' ensures i > 0 && s[i - 1] == '\n' {
        if i >= k { assert t[i - k] == '\\'; }
      }
    }
  }

  /** The condition asked of the source's certificates is sufficient. */
  lemma {:induction false} PlainTextSurvives(s: string)
    requires '\\' !in s
    requires forall i :: 0 <= i < |s| && s[i] == '\n' ==> i + 1 < |s| && s[i + 1] != '\n'
    ensures Unescape(Escape(s)) == Some(s)
  {
    UnescapeUndoesEscape(s);
  }

  // ---- One turn of each loop, on values: out is what has been written, i where reading goes on ----

  lemma {:induction false} EscapeSnoc(s: string, c: char)
    ensures Escape(s + [c]) == Escape(s) + (if c == '\n' then "\\n" else [c])
  {
    if s == [] {
      assert [c][1..] == [];
    } else {
      var more := if c == '\n' then "\\n" else [c];
      EscapeSnoc(s[1..], c);
      assert (s + [c])[1..] == s[1..] + [c];
      Associative(if s[0] == '\n' then "\\n" else [s[0]], Escape(s[1..]), more);
    }
  }

  lemma {:induction false} EscapeTurn(s: string, i: nat)
    requires i < |s|
    ensures Escape(s[..i + 1]) == Escape(s[..i]) + (if s[i] == '\n' then "\\n" else [s[i]])
    ensures |Escape(s[..i + 1])| <= |Escape(s)|
    decreases |s| - i
  {
    EscapeSnoc(s[..i], s[i]);
    assert s[..i] + [s[i]] == s[..i + 1];
    if i + 1 < |s| {
      EscapeTurn(s, i + 1);
    } else {
      assert s[..i + 1] == s;
    }
  }

  /** How many characters a turn of unescape_new_line reads, and what it writes. */
  function Unescaped(t: string, i: nat): (int, string)
    requires i < |t| && Unescape(t[i..]).Some?
  {
    if t[i] != '\\' then (1, [t[i]])
    else if t[i + 1] != 'n' then (2, [t[i + 1]])
    else (3, ['\n', t[i + 2]])
  }

  lemma {:induction false} UnescapeAt(t: string, i: nat)
    requires i < |t| && Unescape(t[i..]).Some?
    ensures var (n, c) := Unescaped(t, i);
            i + n <= |t| && Unescape(t[i..]) == Prepend(c, Unescape(t[i + n..]))
  {
    var (n, c) := Unescaped(t, i);
    assert t[i..][n..] == t[i + n..];
  }

  /** When reading has come to i and writing to j, unescaping the rest gives the rest of the result u. */
  ghost predicate Progress(t: string, u: string, i: nat, j: nat) {
    i <= |t| && j <= |u| && Unescape(t[i..]) == Some(u[j..])
  }

  lemma {:induction false} RestBegins(u: string, j: nat, c: string, t: Option<string>)
    requires j <= |u| && Prepend(c, t) == Some(u[j..])
    ensures j + |c| <= |u| && t == Some(u[j + |c|..]) && forall k :: 0 <= k < |c| ==> u[j + k] == c[k]
  {
    var r := u[j..];
    assert r == c + t.value && r[|c|..] == t.value;
    assert forall k :: 0 <= k < |c| ==> u[j + k] == r[k];
  }

  lemma {:induction false} UnescapeTurn(t: string, u: string, i: nat, j: nat)
    requires i < |t| && Progress(t, u, i, j)
    ensures t[i] != '\\' ==> j < |u| && u[j] == t[i] && Progress(t, u, i + 1, j + 1)
    ensures t[i] == '\\' ==> i + 1 < |t|
    ensures t[i] == '\\' && t[i + 1] != 'n' ==> j < |u| && u[j] == t[i + 1] && Progress(t, u, i + 2, j + 1)
    ensures t[i] == '\\' && t[i + 1] == 'n' ==>
              i + 2 < |t| && j + 1 < |u| && u[j] == '\n' && u[j + 1] == t[i + 2] && Progress(t, u, i + 3, j + 2)
  {
    var (n, c) := Unescaped(t, i);
    UnescapeAt(t, i);
    RestBegins(u, j, c, Unescape(t[i + n..]));
    assert u[j + 0] == c[0];
  }

  lemma {:induction false} ProgressEnds(t: string, u: string, j: nat)
    ensures Unescape(t) == Some(u) ==> Progress(t, u, 0, 0)
    ensures Progress(t, u, |t|, j) ==> j == |u|
  {
    assert t[0..] == t && u[0..] == u && t[|t|..] == [];
  }

  predicate PairAt(t: string, i: nat) {
    i + 1 < |t| && t[i] == '\\' && t[i + 1] == 'n'
  }

  lemma {:induction false} DeformatAt(t: string, i: nat)
    requires i < |t|
    ensures PairAt(t, i) ==> Deformat(t[i..]) == ['\n'] + Deformat(t[i + 2..])
    ensures !PairAt(t, i) ==> Deformat(t[i..]) == [t[i]] + Deformat(t[i + 1..])
  {
    var u := t[i..];
    assert u[1..] == t[i + 1..];
    if PairAt(t, i) {
      assert u[2..] == t[i + 2..];
    }
  }

  lemma {:induction false} Associative(a: string, b: string, c: string)
    ensures a + (b + c) == a + b + c
  {
  }

  lemma {:induction false} DeformatTurn(t: string, i: nat, out: string)
    requires i < |t| && Deformat(t) == out + Deformat(t[i..])
    ensures PairAt(t, i) ==> Deformat(t) == out + ['\n'] + Deformat(t[i + 2..])
    ensures !PairAt(t, i) ==> Deformat(t) == out + [t[i]] + Deformat(t[i + 1..])
  {
    DeformatAt(t, i);
    if PairAt(t, i) {
      Associative(out, ['\n'], Deformat(t[i + 2..]));
    } else {
      Associative(out, [t[i]], Deformat(t[i + 1..]));
    }
  }

  lemma {:induction false} EscapeNoNul(s: string)
    requires '\0' !in s
    ensures '\0' !in Escape(s)
  {
    if s == [] {
    } else {
      EscapeNoNul(s[1..]);
    }
  }

  // ---- The loops, on NUL-terminated buffers ----

  /** The buffer holds s and the terminator. */
  ghost predicate HoldsText(a: seq<char>, s: string) {
    && |s| < |a| && a[|s|] == '\0'
    && forall k :: 0 <= k < |s| ==> a[k] == s[k] && s[k] != '\0'
  }

  method Strlen(str: array<char>, ghost s: string) returns (n: nat)
    requires HoldsText(str[..], s)
    ensures n == |s|
  {
    n := 0;
    assert forall k :: 0 <= k < |s| ==> str[k] == str[..][k] == s[k] != '\0';
    while str[n] != '\0'
      invariant n <= |s|
      decreases |s| - n
    {
      n := n + 1;
    }
  }

  /** escape_new_line: the CSR text is replaced by its escaped form, built in the payload buffer. */
  method EscapeNewLine(csr: array<char>, payload: array<char>, ghost s: string)
    requires csr.Length == MAX_CSR_SIZE && payload.Length == ClaimProtocol.MAX_PAYLOAD_SIZE && csr != payload
    requires HoldsText(csr[..], s) && s != [] && |Escape(StripFinal(s))| < MAX_CSR_SIZE
    modifies csr, payload
    ensures HoldsText(csr[..], Escape(StripFinal(s)))
    ensures HoldsText(payload[..], Escape(StripFinal(s)))
    ensures forall i :: |Escape(StripFinal(s))| <= i < payload.Length ==> payload[i] == '\0'
  {
    forall i | 0 <= i < payload.Length {
      payload[i] := '\0';
    }
    var n := Strlen(csr, s);
    assert csr[n - 1] == csr[..][n - 1] == s[n - 1];
    if csr[n - 1] == '\n' {
      csr[n - 1] := '\0';
    }
    ghost var text := StripFinal(s);
    assert HoldsText(csr[..], text);
    EscapeNoNul(text);
    var target := EscapeInto(csr, payload, text);
    Strcpy(csr, payload, Escape(text));
  }

  /** The escaping loop. */
  method EscapeInto(csr: array<char>, payload: array<char>, ghost text: string) returns (target: nat)
    requires csr != payload && HoldsText(csr[..], text) && |Escape(text)| < payload.Length
    requires '\0' !in Escape(text)
    requires forall i :: 0 <= i < payload.Length ==> payload[i] == '\0'
    modifies payload
    ensures HoldsText(payload[..], Escape(text))
    ensures forall i :: |Escape(text)| <= i < payload.Length ==> payload[i] == '\0'
  {
    var str := 0;
    target := 0;
    ghost var out := [];
    assert text[..0] == [];
    assert forall k :: 0 <= k < |text| ==> csr[k] == csr[..][k] == text[k] != '\0';
    while csr[str] != '\0'
      invariant str <= |text| && out == Escape(text[..str]) && target == |out| <= |Escape(text)|
      invariant forall k :: 0 <= k < target ==> payload[k] == out[k]
      invariant forall i :: target <= i < payload.Length ==> payload[i] == '\0'
      decreases |text| - str
    {
      EscapeTurn(text, str);
      if csr[str] == '\n' {
        payload[target] := '\\';
        payload[target + 1] := 'n';
        out := out + "\\n";
        target := target + 2;
        str := str + 1;
        continue;
      }
      payload[target] := csr[str];
      out := out + [text[str]];
      target := target + 1;
      str := str + 1;
    }
    assert text[..str] == text;
    payload[target] := '\0';
  }

  method Strcpy(dest: array<char>, src: array<char>, ghost s: string)
    requires dest != src && |s| < dest.Length && HoldsText(src[..], s)
    modifies dest
    ensures HoldsText(dest[..], s)
  {
    var i := 0;
    assert forall k :: 0 <= k < |s| ==> src[k] == src[..][k] == s[k] != '\0';
    while src[i] != '\0'
      invariant i <= |s| && forall k :: 0 <= k < i ==> dest[k] == s[k]
      decreases |s| - i
    {
      dest[i] := src[i];
      i := i + 1;
    }
    dest[i] := '\0';
  }

  lemma {:induction false} UnescapeNoNul(t: string)
    requires '\0' !in t && Unescape(t).Some?
    ensures '\0' !in Unescape(t).value && |Unescape(t).value| <= |t|
  {
    if t == [] {
    } else {
      var k := if t[0] != '\\' then 1 else if t[1] != 'n' then 2 else 3;
      UnescapeNoNul(t[k..]);
    }
  }

  /** unescape_new_line, in place. */
  method UnescapeNewLine(str: array<char>, ghost t: string)
    requires HoldsText(str[..], t) && Unescape(t).Some?
    modifies str
    ensures HoldsText(str[..], Unescape(t).value)
  {
    UnescapeNoNul(t);
    assert forall k :: 0 <= k < |t| ==> str[k] == str[..][k] == t[k] != '\0';
    var j := UnescapeInto(str, t, Unescape(t).value);
    str[j] := '\0';
  }

  /** The unescaping loop. */
  method UnescapeInto(str: array<char>, ghost t: string, ghost u: string) returns (j: nat)
    requires Unescape(t) == Some(u) && |t| < str.Length && str[|t|] == '\0'
    requires forall k :: 0 <= k < |t| ==> str[k] == t[k] != '\0'
    modifies str
    ensures j == |u| <= |t| && forall k :: 0 <= k < j ==> str[k] == u[k]
  {
    var i := 0;
    j := 0;
    ProgressEnds(t, u, 0);
    while str[i] != '\0'
      invariant j <= i <= |t| && Progress(t, u, i, j)
      invariant forall k :: 0 <= k < j ==> str[k] == u[k]
      invariant forall k :: i <= k < |t| ==> str[k] == t[k]
      invariant str[|t|] == '\0'
      decreases |t| - i
    {
      UnescapeTurn(t, u, i, j);
      if str[i] == '\\' {
        i := i + 1;
        if str[i] == 'n' {
          str[j] := '\n';
          j := j + 1;
          i := i + 1;
        }
      }
      str[j] := str[i];
      j := j + 1;
      i := i + 1;
    }
    ProgressEnds(t, u, j);
  }

  /** deformat_cert: a fresh buffer with the text in which every "\n" pair is a newline. */
  method DeformatCert(input: string) returns (output: array<char>)
    requires '\0' !in input
    ensures fresh(output) && output.Length == |input| + 1
    ensures HoldsText(output[..], Deformat(input))
  {
    output := new char[|input| + 1](_ => '\0');
    var i, n := 0, 0;
    ghost var out := [];
    assert input[0..] == input;
    DeformatNoNul(input);
    while i < |input|
      invariant n == |out| <= i <= |input|
      invariant forall k :: 0 <= k < n ==> output[k] == out[k]
      invariant Deformat(input) == out + Deformat(input[i..])
      decreases |input| - i
    {
      DeformatTurn(input, i, out);
      if input[i] == '\\' && i + 1 < |input| && input[i + 1] == 'n' {
        output[n] := '\n';
        out := out + ['\n'];
        i := i + 2;
      } else {
        output[n] := input[i];
        out := out + [input[i]];
        i := i + 1;
      }
      n := n + 1;
    }
    assert input[i..] == [];
    assert out == Deformat(input);
    output[n] := '\0';
  }

  lemma {:induction false} DeformatNoNul(t: string)
    requires '\0' !in t
    ensures '\0' !in Deformat(t)
  {
    if t == [] {
    } else {
      DeformatNoNul(t[1..]);
      if |t| > 1 {
        DeformatNoNul(t[2..]);
      }
    }
  }
}
