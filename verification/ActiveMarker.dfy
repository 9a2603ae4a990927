/** The text of the `active-dictionary` marker: two identifiers behind a fixed first line. An absent marker is the
    empty token. */
module ActiveMarker {
  import opened Optional

  /** A staged generation and the resource bundle it was built from. */
  datatype Installed = Installed(generation: string, content: string)

  const PREFIX: string := "msime-active-dictionary-v1\n"

  predicate IdentifierChar(c: char) {
    'a' <= c <= 'z' || 'A' <= c <= 'Z' || '0' <= c <= '9' || c == '_' || c == '-'
  }

  predicate Identifier(s: string) {
    0 < |s| <= 128 && forall i :: 0 <= i < |s| ==> IdentifierChar(s[i])
  }

  predicate ValidNames(n: Installed) {
    Identifier(n.generation) && Identifier(n.content)
  }

  function Encode(n: Installed): string {
    PREFIX + n.generation + "\n" + n.content + "\n"
  }

  /** `std::string::find('\n', from)`, with `|s|` standing for `npos`. */
  function FindNewline(s: string, from: nat): (k: nat)
    requires from <= |s|
    ensures from <= k <= |s|
    ensures k < |s| ==> s[k] == '\n'
    ensures forall i :: from <= i < k ==> s[i] != '\n'
    decreases |s| - from
  {
    if from == |s| || s[from] == '\n' then from else FindNewline(s, from + 1)
  }

  /** `std::string::substr`: the count is unsigned, so a difference below zero wraps and means "to the end". */
  function Substr(s: string, pos: nat, count: int): string
    requires pos <= |s|
  {
    if count < 0 || pos + count > |s| then s[pos..] else s[pos..pos + count]
  }

  function Decode(v: string): Option<Installed> {
    if !(PREFIX <= v) then None
    else
      var end := FindNewline(v, |PREFIX|);
      if end == |v| || v[|v| - 1] != '\n' then None
      else
        var names := Installed(v[|PREFIX|..end], Substr(v, end + 1, |v| - end - 2));
        if ValidNames(names) then Some(names) else None
  }

  lemma {:induction false} FindNewlineAt(s: string, from: nat, k: nat)
    requires from <= k < |s| && s[k] == '\n'
    requires forall i :: from <= i < k ==> s[i] != '\n'
    ensures FindNewline(s, from) == k
    decreases k - from
  {
    if from < k {
      FindNewlineAt(s, from + 1, k);
    }
  }

  lemma DecodeEncode(n: Installed)
    requires ValidNames(n)
    ensures Decode(Encode(n)) == Some(n)
  {
    var v := Encode(n);
    var end := |PREFIX| + |n.generation|;
    assert v[|PREFIX|..end] == n.generation;
    assert v[end] == '\n';
    forall i | |PREFIX| <= i < end ensures v[i] != '\n' {
      assert v[i] == n.generation[i - |PREFIX|];
      assert IdentifierChar(n.generation[i - |PREFIX|]);
    }
    FindNewlineAt(v, |PREFIX|, end);
    assert v[end + 1..|v| - 1] == n.content;
  }

  lemma CutAtNewlines(v: string, from: nat, end: nat)
    requires from <= end < |v| - 1 && v[end] == '\n' && v[|v| - 1] == '\n'
    ensures v == v[..from] + v[from..end] + "\n" + v[end + 1..|v| - 1] + "\n"
  {
  }

  lemma EncodeDecode(v: string)
    requires Decode(v).Some?
    ensures ValidNames(Decode(v).value) && Encode(Decode(v).value) == v
  {
    var n := Decode(v).value;
    var end := FindNewline(v, |PREFIX|);
    assert end < |v| - 1;  // otherwise the second name would be empty
    assert n == Installed(v[|PREFIX|..end], v[end + 1..|v| - 1]);
    CutAtNewlines(v, |PREFIX|, end);
  }

  /** A marker is accepted exactly when it is the encoding of two identifiers, and it then names exactly those two. */
  lemma DecodeIsInverse(v: string, n: Installed)
    ensures Decode(v) == Some(n) <==> ValidNames(n) && v == Encode(n)
  {
    if ValidNames(n) && v == Encode(n) {
      DecodeEncode(n);
    }
    if Decode(v) == Some(n) {
      EncodeDecode(v);
    }
  }

  /** Two markers that name the same installation are the same bytes, so comparing tokens compares installations. */
  lemma DecodeInjective(v: string, w: string)
    requires Decode(w).Some?
    ensures Decode(v) == Decode(w) <==> v == w
  {
    if Decode(v) == Decode(w) {
      EncodeDecode(v);
      EncodeDecode(w);
    }
  }

  /** A marker with a single line after the prefix is refused, whatever that line is. */
  lemma OneLineIsRefused(line: string)
    requires '\n' !in line
    ensures Decode(PREFIX + line + "\n") == None
  {
    var v := PREFIX + line + "\n";
    forall i | |PREFIX| <= i < |v| - 1 ensures v[i] != '\n' {
      assert v[i] == line[i - |PREFIX|];
    }
    FindNewlineAt(v, |PREFIX|, |v| - 1);
    assert Substr(v, |v|, -1) == [];
  }

  /** Names are one to 128 ASCII letters, digits, underscores and hyphens, so they cannot leave their directory. */
  lemma IdentifierIff(s: string)
    ensures Identifier(s) <==>
            && 1 <= |s| <= 128
            && forall c :: c in s ==>
                 c in "_-" || 48 <= c as int <= 57 || 65 <= c as int <= 90 || 97 <= c as int <= 122
    ensures Identifier(s) ==> '/' !in s && '.' !in s && '\n' !in s && '\0' !in s
  {
    forall c: char ensures c in "_-" <==> c == '_' || c == '-' {
    }
    if Identifier(s) {
      forall c | c in s ensures IdentifierChar(c) {
        var i :| 0 <= i < |s| && s[i] == c;
      }
    }
    if forall c :: c in s ==> c in "_-" || 48 <= c as int <= 57 || 65 <= c as int <= 90 || 97 <= c as int <= 122 {
      forall i | 0 <= i < |s| ensures IdentifierChar(s[i]) {
        assert s[i] in s;
      }
    }
  }

  /** The marker's text, and that the reader's limit of 512 bytes never cuts it. */
  lemma MarkerFits(n: Installed)
    requires ValidNames(n)
    ensures Encode(n) == "msime-active-dictionary-v1\n" + n.generation + "\n" + n.content + "\n"
    ensures |Encode(n)| == 29 + |n.generation| + |n.content| <= 512
  {
  }
}
