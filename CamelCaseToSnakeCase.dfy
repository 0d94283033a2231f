/**
 * `camelCaseToSnakeCase`: splits a string before each capital letter
 * (`split(/(?=[A-Z])/)`) and joins the words again with "_". Letter case
 * is left as it is.
 */
module CamelCaseToSnakeCase {
  import opened Strings
  import opened Wrappers
  import opened Json

  /**
   * The words of `[c] + t` as `split(/(?=[A-Z])/)` returns them: a new word
   * starts at every capital except one at the very start, where the empty
   * lookahead match is skipped.
   */
  function Pieces(c: char, t: string): (words: seq<string>)
    ensures |words| >= 1 && |words[0]| >= 1 && words[0][0] == c
    decreases |t|
  {
    if |t| == 0 then [[c]]
    else if IsUpper(t[0]) then [[c]] + Pieces(t[0], t[1..])
    else
      var w := Pieces(t[0], t[1..]);
      [[c] + w[0]] + w[1..]
  }

  /** `camelCase.split(/(?=[A-Z])/)`; the empty string splits into one empty word. */
  function Words(camelCase: string): (words: seq<string>)
    ensures |words| >= 1
  {
    if |camelCase| == 0 then [""] else Pieces(camelCase[0], camelCase[1..])
  }

  /** The array of words tested by `if (words)`, as a JavaScript value. */
  function WordsValue(words: seq<string>): Json {
    JArr(seq(|words|, i requires 0 <= i < |words| => JStr(words[i])))
  }

  /** `camelCaseToSnakeCase(camelCase)`. */
  function CamelCaseToSnakeCase(camelCase: string): string {
    var words := Words(camelCase);
    if Truthy(Some(WordsValue(words))) then Join(words, "_") else camelCase
  }

  // ---------------------------------------------------------------------------
  // An independent character-by-character definition.

  /** The characters of `t`, each capital preceded by "_". */
  function UnderscoreCapitals(t: string): string {
    if |t| == 0 then ""
    else if IsUpper(t[0]) then "_" + [t[0]] + UnderscoreCapitals(t[1..])
    else [t[0]] + UnderscoreCapitals(t[1..])
  }

  /** "_" inserted before every capital at index 1 or later; nothing else changes. */
  function Snake(s: string): string {
    if |s| == 0 then "" else [s[0]] + UnderscoreCapitals(s[1..])
  }

  /** Takes out one "_" before each capital, undoing `UnderscoreCapitals`. */
  function RemoveUnderscores(t: string): string
    decreases |t|
  {
    if |t| == 0 then ""
    else if |t| >= 2 && t[0] == '_' && IsUpper(t[1]) then [t[1]] + RemoveUnderscores(t[2..])
    else [t[0]] + RemoveUnderscores(t[1..])
  }

  /** Undoes `Snake`: keeps the first character and removes the inserted underscores after it. */
  function Unsnake(s: string): string {
    if |s| == 0 then "" else [s[0]] + RemoveUnderscores(s[1..])
  }

  /** The number of capitals in `t`. */
  function CountUpper(t: string): nat {
    if |t| == 0 then 0 else (if IsUpper(t[0]) then 1 else 0) + CountUpper(t[1..])
  }

  // ---------------------------------------------------------------------------
  // Properties.

  /** The `if (words)` test always passes: an array is truthy, so the fallback is never taken. */
  lemma FallbackUnreachable(camelCase: string)
    ensures CamelCaseToSnakeCase(camelCase) == Join(Words(camelCase), "_")
  {
  }

  /** Together the words are the input. */
  lemma {:induction false} PiecesConcat(c: char, t: string)
    ensures Join(Pieces(c, t), "") == [c] + t
    decreases |t|
  {
    if |t| > 0 {
      var w := Pieces(t[0], t[1..]);
      PiecesConcat(t[0], t[1..]);
      if IsUpper(t[0]) {
        var r := [[c]] + w;
        assert r[1..] == w;
        assert Join(r, "") == [c] + "" + Join(w, "");
      } else {
        JoinHead([c], w, "");
      }
      assert [c] + t == [c] + ([t[0]] + t[1..]);
    }
  }

  /** The words are non-empty, and only their first letters can be capitals; every word after the first starts with one. */
  lemma {:induction false} PiecesCapitals(c: char, t: string)
    ensures forall i :: 0 <= i < |Pieces(c, t)| ==> |Pieces(c, t)[i]| >= 1
    ensures forall i :: 1 <= i < |Pieces(c, t)| ==> IsUpper(Pieces(c, t)[i][0])
    ensures forall i, j :: 0 <= i < |Pieces(c, t)| && 1 <= j < |Pieces(c, t)[i]| ==> !IsUpper(Pieces(c, t)[i][j])
    decreases |t|
  {
    if |t| > 0 {
      var w := Pieces(t[0], t[1..]);
      PiecesCapitals(t[0], t[1..]);
      var r := Pieces(c, t);
      if IsUpper(t[0]) {
        assert r == [[c]] + w;
        assert forall i :: 1 <= i < |r| ==> r[i] == w[i - 1];
      } else {
        assert r == [[c] + w[0]] + w[1..];
        assert forall i :: 1 <= i < |r| ==> r[i] == w[i];
        assert forall j :: 1 <= j < |r[0]| ==> r[0][j] == w[0][j - 1];
      }
    }
  }

  /** Prefixing the first word prefixes the joined text. */
  lemma JoinHead(x: string, w: seq<string>, sep: string)
    requires |w| >= 1
    ensures Join([x + w[0]] + w[1..], sep) == x + Join(w, sep)
  {
    var r := [x + w[0]] + w[1..];
    if |w| > 1 {
      assert r[1..] == w[1..];
    }
  }

  /** Joining the words with "_" is the character-by-character insertion. */
  lemma {:induction false} PiecesJoin(c: char, t: string)
    ensures Join(Pieces(c, t), "_") == [c] + UnderscoreCapitals(t)
    decreases |t|
  {
    if |t| > 0 {
      var w := Pieces(t[0], t[1..]);
      PiecesJoin(t[0], t[1..]);
      if IsUpper(t[0]) {
        var r := [[c]] + w;
        assert r[1..] == w;
        assert Join(r, "_") == [c] + "_" + Join(w, "_");
      } else {
        JoinHead([c], w, "_");
      }
    }
  }

  /** The result is the input with "_" inserted before every capital at index 1 or later. */
  lemma InsertsUnderscores(camelCase: string)
    ensures CamelCaseToSnakeCase(camelCase) == Snake(camelCase)
  {
    if |camelCase| > 0 {
      PiecesJoin(camelCase[0], camelCase[1..]);
    }
  }

  lemma {:induction false} UnderscoreCapitalsLength(t: string)
    ensures |UnderscoreCapitals(t)| == |t| + CountUpper(t)
  {
    if |t| > 0 {
      UnderscoreCapitalsLength(t[1..]);
    }
  }

  /** The output is longer than the input by the number of capitals after the first character. */
  lemma SnakeLength(camelCase: string)
    ensures |camelCase| == 0 ==> CamelCaseToSnakeCase(camelCase) == ""
    ensures |camelCase| > 0 ==> |CamelCaseToSnakeCase(camelCase)| == |camelCase| + CountUpper(camelCase[1..])
  {
    InsertsUnderscores(camelCase);
    if |camelCase| > 0 {
      UnderscoreCapitalsLength(camelCase[1..]);
    }
  }

  /** Text without capitals gets no underscores. */
  lemma {:induction false} NoCapitalsUnchanged(t: string)
    requires forall i :: 0 <= i < |t| ==> !IsUpper(t[i])
    ensures UnderscoreCapitals(t) == t
  {
    if |t| > 0 {
      NoCapitalsUnchanged(t[1..]);
      assert t == [t[0]] + t[1..];
    }
  }

  /** Input with no capital after its first character is returned unchanged. */
  lemma NoLaterCapitalUnchanged(camelCase: string)
    requires forall i :: 1 <= i < |camelCase| ==> !IsUpper(camelCase[i])
    ensures CamelCaseToSnakeCase(camelCase) == camelCase
  {
    InsertsUnderscores(camelCase);
    SnakeUnchanged(camelCase);
  }

  lemma SnakeUnchanged(s: string)
    requires forall i :: 1 <= i < |s| ==> !IsUpper(s[i])
    ensures Snake(s) == s
  {
    if |s| > 0 {
      var t := s[1..];
      assert forall i :: 0 <= i < |t| ==> t[i] == s[i + 1];
      NoCapitalsUnchanged(t);
      assert s == [s[0]] + t;
    }
  }

  lemma {:induction false} RemoveUnderscoresInverse(t: string)
    ensures RemoveUnderscores(UnderscoreCapitals(t)) == t
  {
    if |t| > 0 {
      var rest := UnderscoreCapitals(t[1..]);
      RemoveUnderscoresInverse(t[1..]);
      if IsUpper(t[0]) {
        var u := "_" + [t[0]] + rest;
        assert u[2..] == rest;
      } else {
        var u := [t[0]] + rest;
        assert u[1..] == rest;
        // The character after a non-capital is never a capital: a capital is always led by "_".
        assert |u| >= 2 ==> !IsUpper(u[1]) by {
          if |t| > 1 {
            assert IsUpper(t[1]) ==> rest[0] == '_';
            assert !IsUpper(t[1]) ==> rest[0] == t[1];
          }
        }
        assert t == [t[0]] + t[1..];
      }
    }
  }

  /** Removing the inserted underscores gives the input back; in particular no letter changes case. */
  lemma SnakeRoundTrip(camelCase: string)
    ensures Unsnake(CamelCaseToSnakeCase(camelCase)) == camelCase
  {
    InsertsUnderscores(camelCase);
    if |camelCase| > 0 {
      var s := Snake(camelCase);
      RemoveUnderscoresInverse(camelCase[1..]);
      assert s[0] == camelCase[0] && s[1..] == UnderscoreCapitals(camelCase[1..]);
      assert camelCase == [camelCase[0]] + camelCase[1..];
    }
  }
}
