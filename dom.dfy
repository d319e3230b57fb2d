/** Vocabulary shared by the component models: an optional value, and the
    `class` attribute as the components build it (parts of a template joined
    by single spaces) together with the list of class tokens a browser reads
    out of that attribute (split at spaces, empty pieces dropped). */
module Dom {

  datatype Option<T> = None | Some(value: T)

  /** A string holds no space character, so it is at most one class token. */
  predicate NoSpace(s: string) {
    forall i :: 0 <= i < |s| ==> s[i] != ' '
  }

  /** Joins `parts` with one space between neighbours, as `[...].join(' ')`
      and a template literal with spaces between its holes both do. */
  function JoinSpace(parts: seq<string>): string {
    if parts == [] then ""
    else if |parts| == 1 then parts[0]
    else parts[0] + " " + JoinSpace(parts[1..])
  }

  /** The parts that are not empty, in order (`.filter(Boolean)`). */
  function NonEmpty(parts: seq<string>): (r: seq<string>)
    ensures |r| <= |parts|
    ensures forall t :: t in r <==> t in parts && t != ""
  {
    if parts == [] then []
    else (if parts[0] == "" then [] else [parts[0]]) + NonEmpty(parts[1..])
  }

  /** The word collected so far, as a token list of length zero or one. */
  function Flush(word: string): seq<string> {
    if word == [] then [] else [word]
  }

  /** Splits `s` at spaces, `word` being the token started before `s`. */
  function Split(s: string, word: string): seq<string>
    decreases |s|
  {
    if s == [] then Flush(word)
    else if s[0] == ' ' then Flush(word) + Split(s[1..], "")
    else Split(s[1..], word + [s[0]])
  }

  /** The class tokens of a class attribute, split at the space character
      only. `classList` splits at every ASCII whitespace character (tab, line
      feed, form feed, carriage return too) and drops repeated tokens. The
      attributes the components build never repeat a token, so the two agree
      whenever their parts hold no whitespace; `NoSpace` rules out only the
      space, and a variant holding a tab is where they differ. */
  function Tokens(cls: string): seq<string> {
    Split(cls, "")
  }

  /** A string without spaces extends the pending word and nothing more. */
  lemma {:induction false} SplitWord(w: string, word: string)
    requires NoSpace(w)
    ensures Split(w, word) == Flush(word + w)
    decreases |w|
  {
    if w == [] {
      assert word + w == word;
    } else {
      assert w[0] != ' ';
      assert NoSpace(w[1..]) by {
        forall i | 0 <= i < |w[1..]| ensures w[1..][i] != ' ' { assert w[1..][i] == w[i + 1]; }
      }
      SplitWord(w[1..], word + [w[0]]);
      assert (word + [w[0]]) + w[1..] == word + w;
    }
  }

  /** A space separates: what comes before and after it tokenizes independently. */
  lemma {:induction false} SplitAtSpace(a: string, b: string, word: string)
    ensures Split(a + " " + b, word) == Split(a, word) + Split(b, "")
    decreases |a|
  {
    if a == [] {
      assert a + " " + b == [' '] + b;
      assert (a + " " + b)[1..] == b;
    } else {
      assert (a + " " + b)[0] == a[0];
      assert (a + " " + b)[1..] == a[1..] + " " + b;
      if a[0] == ' ' {
        SplitAtSpace(a[1..], b, "");
      } else {
        SplitAtSpace(a[1..], b, word + [a[0]]);
      }
    }
  }

  /** Tokenizing a space-joined attribute gives back exactly its non-empty
      parts, in order, provided no part holds a space itself. */
  lemma {:induction false} TokensOfJoin(parts: seq<string>)
    requires forall p :: p in parts ==> NoSpace(p)
    ensures Tokens(JoinSpace(parts)) == NonEmpty(parts)
    decreases |parts|
  {
    if parts == [] {
    } else if |parts| == 1 {
      assert parts[0] in parts;
      SplitWord(parts[0], "");
      assert "" + parts[0] == parts[0];
      assert NonEmpty(parts[1..]) == [];
    } else {
      assert parts[0] in parts;
      assert forall p :: p in parts[1..] ==> p in parts;
      SplitAtSpace(parts[0], JoinSpace(parts[1..]), "");
      SplitWord(parts[0], "");
      assert "" + parts[0] == parts[0];
      TokensOfJoin(parts[1..]);
    }
  }

  /** Joining non-empty, space-free parts yields a class attribute in
      canonical form: no empty token, single spaces only. */
  lemma CanonicalJoin(parts: seq<string>)
    requires forall p :: p in parts ==> NoSpace(p) && p != ""
    ensures Tokens(JoinSpace(parts)) == parts
    ensures JoinSpace(Tokens(JoinSpace(parts))) == JoinSpace(parts)
  {
    TokensOfJoin(parts);
    NonEmptyOfNonEmpty(parts);
  }

  lemma {:induction false} NonEmptyOfNonEmpty(parts: seq<string>)
    requires forall p :: p in parts ==> p != ""
    ensures NonEmpty(parts) == parts
    decreases |parts|
  {
    if parts != [] {
      assert parts[0] in parts;
      assert forall p :: p in parts[1..] ==> p in parts;
      NonEmptyOfNonEmpty(parts[1..]);
    }
  }

  /** Three parts joined read as the first, a space, the second, a space
      and the third. */
  lemma JoinThree(a: string, b: string, c: string)
    ensures JoinSpace([a, b, c]) == a + " " + b + " " + c
  {
    var parts := [a, b, c];
    assert parts[1..][1..] == [c];
    assert JoinSpace(parts[1..]) == b + " " + c;
  }

  /** Regrouping a concatenation of three logs. */
  lemma AppendAssoc<T>(a: seq<T>, b: seq<T>, c: seq<T>)
    ensures (a + b) + c == a + (b + c)
  {
  }

  /** Concatenation of two space-free strings is space-free. */
  lemma NoSpaceConcat(a: string, b: string)
    requires NoSpace(a) && NoSpace(b)
    ensures NoSpace(a + b)
  {
    forall i | 0 <= i < |a + b| ensures (a + b)[i] != ' ' {
      if i >= |a| { assert (a + b)[i] == b[i - |a|]; }
    }
  }
}
