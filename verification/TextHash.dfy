/** What a translation memory knows a text by: `normalizeText` of scripts/control-ui-i18n.ts, whose
    result is hashed. */
module TextHash {
  import opened JsStrings

  /** `text.trim().split(/\s+/).join(" ")` */
  function NormalizeText(text: string): string {
    Collapse(Trim(text), false)
  }

  function Collapse(s: string, inSpace: bool): string {
    if s == "" then ""
    else if IsSpace(s[0]) then (if inSpace then "" else " ") + Collapse(s[1..], true)
    else [s[0]] + Collapse(s[1..], false)
  }

  /** The words of a text: what white space separates. */
  function Words(s: string): seq<string> {
    if s == "" then []
    else if IsSpace(s[0]) then Words(s[1..])
    else if |s| == 1 || IsSpace(s[1]) then [[s[0]]] + Words(s[1..])
    else
      var rest := Words(s[1..]);
      if rest == [] then [[s[0]]] else [[s[0]] + rest[0]] + rest[1..]
  }

  /** Words with a space in front of each. */
  function Spaced(words: seq<string>): string {
    if words == [] then "" else " " + words[0] + Spaced(words[1..])
  }

  /** Words with single spaces between them. */
  function Joined(words: seq<string>): string {
    if words == [] then "" else words[0] + Spaced(words[1..])
  }

  lemma {:induction false} JoinedAfterSpace(c: char, rest: seq<string>)
    requires rest != []
    ensures Joined([[c]] + rest) == [c] + " " + Joined(rest)
  {
    assert ([[c]] + rest)[1..] == rest;
    assert Spaced(rest) == " " + (rest[0] + Spaced(rest[1..]));
  }

  lemma {:induction false} JoinedInWord(c: char, rest: seq<string>)
    requires rest != []
    ensures Joined([[c] + rest[0]] + rest[1..]) == [c] + Joined(rest)
  {
    assert ([[c] + rest[0]] + rest[1..])[1..] == rest[1..];
    assert ([c] + rest[0]) + Spaced(rest[1..]) == [c] + (rest[0] + Spaced(rest[1..]));
  }

  lemma {:induction false} OneLetter(s: string)
    requires |s| == 1 && !IsSpace(s[0])
    ensures Words(s) == [s] && Joined(Words(s)) == s && forall inSpace :: Collapse(s, inSpace) == s
  {
    assert s[1..] == "" && s == [s[0]] && [s] + [] == [s];
    assert [s][1..] == [] && s + "" == s;
  }

  /** What collapsing does to a text, or the rest of one, that ends in a word. */
  lemma {:induction false} CollapsedIs(s: string, inSpace: bool)
    requires s != "" && !IsSpace(s[|s| - 1])
    ensures Words(s) != []
    ensures Collapse(s, inSpace) == (if IsSpace(s[0]) && !inSpace then " " else "") + Joined(Words(s))
  {
    if |s| > 1 {
      var rest := Words(s[1..]);
      assert s[1..][|s[1..]| - 1] == s[|s| - 1];
      CollapsedIs(s[1..], IsSpace(s[0]));
      if !IsSpace(s[0]) {
        if IsSpace(s[1]) {
          JoinedAfterSpace(s[0], rest);
        } else {
          JoinedInWord(s[0], rest);
        }
      }
    } else {
      OneLetter(s);
    }
  }

  lemma {:induction false} WordsOfBlank(s: string)
    ensures IsBlank(s) <==> Words(s) == []
  {
    if s != "" {
      WordsOfBlank(s[1..]);
      assert s == [s[0]] + s[1..];
    }
  }

  lemma {:induction false} WordsTrimStart(s: string)
    ensures Words(TrimStart(s)) == Words(s)
  {
    if s != "" && IsSpace(s[0]) {
      WordsTrimStart(s[1..]);
    }
  }

  lemma {:induction false} WordsTrimEnd(s: string)
    ensures Words(TrimEnd(s)) == Words(s)
  {
    if s != "" && IsSpace(s[|s| - 1]) {
      WordsTrimEnd(s[..|s| - 1]);
      WordsDropSpace(s[..|s| - 1], s[|s| - 1]);
      assert s == s[..|s| - 1] + [s[|s| - 1]];
    }
  }

  lemma {:induction false} WordsDropSpace(s: string, c: char)
    requires IsSpace(c)
    ensures Words(s + [c]) == Words(s)
  {
    if s == "" {
      assert ([c])[1..] == "" && s + [c] == [c];
    } else {
      assert (s + [c])[1..] == s[1..] + [c];
      WordsDropSpace(s[1..], c);
      if |s| == 1 {
        assert s[1..] == "" && Words("") == [];
      } else {
        assert (s + [c])[1] == s[1];
      }
    }
  }

  /** Normalising puts single spaces between the words of a text, and nothing else matters. */
  lemma {:induction false} NormalizedWords(text: string)
    ensures NormalizeText(text) == Joined(Words(text))
  {
    WordsTrimStart(text);
    WordsTrimEnd(TrimStart(text));
    TrimShape(text);
    if Trim(text) == "" {
      WordsOfBlank(text);
    } else {
      CollapsedIs(Trim(text), false);
    }
  }

  /** Words hold no space, so spaced words can be told apart. */
  lemma {:induction false} SpacedTellsApart(v: seq<string>, w: seq<string>)
    requires AreWords(v) && AreWords(w) && Spaced(v) == Spaced(w)
    ensures v == w
  {
    if v != [] && w != [] {
      FirstWord(v[0], Spaced(v[1..]), w[0], Spaced(w[1..]));
      assert " " + v[0] + Spaced(v[1..]) == " " + (v[0] + Spaced(v[1..]));
      assert " " + w[0] + Spaced(w[1..]) == " " + (w[0] + Spaced(w[1..]));
      assert v[0] + Spaced(v[1..]) == Spaced(v)[1..] == Spaced(w)[1..] == w[0] + Spaced(w[1..]);
      SpacedTellsApart(v[1..], w[1..]);
      assert v == [v[0]] + v[1..] && w == [w[0]] + w[1..];
    }
  }

  ghost predicate AreWords(words: seq<string>) {
    forall i :: 0 <= i < |words| ==> IsWord(words[i])
  }

  predicate IsWord(word: string) {
    word != "" && forall i :: 0 <= i < |word| ==> !IsSpace(word[i])
  }

  lemma {:induction false} FirstWord(v: string, a: string, w: string, b: string)
    requires IsWord(v) && IsWord(w) && (a == "" || a[0] == ' ') && (b == "" || b[0] == ' ')
    ensures v + a == w + b ==> v == w && a == b
  {
    if v + a == w + b {
      NotShorter(v, a, w, b);
      NotShorter(w, b, v, a);
      assert (v + a)[..|v|] == v && (w + b)[..|w|] == w;
      assert (v + a)[|v|..] == a && (w + b)[|w|..] == b;
    }
  }

  lemma {:induction false} NotShorter(v: string, a: string, w: string, b: string)
    requires IsWord(w) && (a == "" || a[0] == ' ') && v + a == w + b
    ensures |v| >= |w|
  {
    assert forall i :: 0 <= i < |w| ==> !IsSpace((w + b)[i]);
    assert a != "" ==> IsSpace((v + a)[|v|]);
  }

  lemma {:induction false} WordsAreWords(s: string)
    ensures AreWords(Words(s))
  {
    if s != "" {
      WordsAreWords(s[1..]);
    }
  }

  /** Two texts are known by the same hash if and only if they have the same words. */
  lemma {:induction false} SameWordsSameHash(a: string, b: string)
    ensures NormalizeText(a) == NormalizeText(b) <==> Words(a) == Words(b)
  {
    var v, w := Words(a), Words(b);
    NormalizedWords(a);
    NormalizedWords(b);
    WordsAreWords(a);
    WordsAreWords(b);
    if NormalizeText(a) == NormalizeText(b) && v != [] && w != [] {
      assert Spaced(v) == " " + NormalizeText(a) && Spaced(w) == " " + NormalizeText(b);
      SpacedTellsApart(v, w);
    }
  }
}
