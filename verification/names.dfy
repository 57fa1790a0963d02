/**
  The display name the login form derives from an email address: the text
  before the first '@', with digits and the characters `._+-` turned into
  spaces, the first character of every space-separated word upper-cased,
  trimmed, and "User" when nothing is left.
 */
module Names {
  import opened Text

  const FallbackName := "User"

  /** The characters the name derivation turns into spaces: `[0-9._+-]`. */
  predicate IsSeparator(c: char) {
    ('0' <= c <= '9') || c == '.' || c == '_' || c == '+' || c == '-'
  }

  /** `email.split('@')[0]`: the local part, everything before the first '@'. */
  function LocalPart(email: string): (r: string)
    ensures '@' !in r
    ensures |r| <= |email| && r == email[..|r|]
    ensures |r| == |email| || email[|r|] == '@'
  {
    Split(email, '@')[0]
  }

  /** `.replace(/[0-9._+-]/g, ' ')`. */
  function BlankSeparators(s: string): (r: string)
    ensures |r| == |s|
    ensures forall i :: 0 <= i < |s| ==> !IsSeparator(r[i])
    ensures forall i :: 0 <= i < |s| && IsSeparator(s[i]) ==> r[i] == ' '
    ensures forall i :: 0 <= i < |s| && !IsSeparator(s[i]) ==> r[i] == s[i]
  {
    if s == [] then []
    else [if IsSeparator(s[0]) then ' ' else s[0]] + BlankSeparators(s[1..])
  }

  /** `word.charAt(0).toUpperCase() + word.slice(1)`. */
  function UpperFirst(word: string): (r: string)
    ensures |r| == |word|
    ensures word != [] ==> !IsLowerAscii(r[0]) && r[1..] == word[1..]
    ensures word != [] && !IsLowerAscii(word[0]) ==> r == word
  {
    if word == [] then [] else [ToUpperAscii(word[0])] + word[1..]
  }

  /** `.map(UpperFirst)` over a list of words. */
  function UpperFirstEach(words: seq<string>): (r: seq<string>)
    ensures |r| == |words|
    ensures forall i :: 0 <= i < |words| ==> r[i] == UpperFirst(words[i])
  {
    seq(|words|, i requires 0 <= i < |words| => UpperFirst(words[i]))
  }

  /**
    Reference definition of capitalising words, character by character: a
    character is upper-cased exactly when it starts the string or follows a space.
   */
  function UpperAtWordStarts(s: string): (r: string)
    ensures |r| == |s|
  {
    seq(|s|, i requires 0 <= i < |s| => if i == 0 || s[i - 1] == ' ' then ToUpperAscii(s[i]) else s[i])
  }

  /** On one word (no space in it), only its first character changes. */
  lemma UpperFirstOfWord(w: string)
    requires ' ' !in w
    ensures UpperFirst(w) == UpperAtWordStarts(w)
  {
    if w != [] {
      forall i | 0 <= i < |w| ensures UpperFirst(w)[i] == UpperAtWordStarts(w)[i] {
        if i > 0 {
          assert w[i - 1] in w;
        }
      }
    }
  }

  /** Capitalising `w + " " + t` character by character splits at the first space. */
  lemma UpperAtWordStartsAppend(w: string, t: string)
    requires ' ' !in w
    ensures UpperAtWordStarts(w + [' '] + t) == UpperFirst(w) + [' '] + UpperAtWordStarts(t)
  {
    var s := w + [' '] + t;
    var lhs := UpperAtWordStarts(s);
    var rhs := UpperFirst(w) + [' '] + UpperAtWordStarts(t);
    UpperFirstOfWord(w);
    assert |lhs| == |rhs|;
    forall i | 0 <= i < |s| ensures lhs[i] == rhs[i] {
      if i < |w| {
        if i > 0 {
          assert s[i - 1] == w[i - 1];
        }
      } else if i > |w| + 1 {
        assert s[i - 1] == t[i - |w| - 2];
      }
    }
  }

  /** Mapping UpperFirst over space-free words and joining equals the character-wise definition. */
  lemma {:induction false} JoinUpperFirstEach(words: seq<string>)
    requires |words| >= 1
    requires forall i :: 0 <= i < |words| ==> ' ' !in words[i]
    ensures Join(UpperFirstEach(words), ' ') == UpperAtWordStarts(Join(words, ' '))
  {
    if |words| == 1 {
      UpperFirstOfWord(words[0]);
    } else {
      JoinUpperFirstEach(words[1..]);
      assert UpperFirstEach(words)[1..] == UpperFirstEach(words[1..]);
      UpperAtWordStartsAppend(words[0], Join(words[1..], ' '));
    }
  }

  /**
    `.split(' ').map(UpperFirst).join(' ')`, as the source chains it; it
    neither adds nor drops a character.
   */
  function CapitalizeWords(s: string): (r: string)
    ensures |r| == |s|
  {
    JoinUpperFirstEach(Split(s, ' '));
    JoinSplit(s, ' ');
    Join(UpperFirstEach(Split(s, ' ')), ' ')
  }

  /** The split-map-join chain upper-cases exactly the characters at word starts. */
  lemma CapitalizeWordsAtWordStarts(s: string)
    ensures CapitalizeWords(s) == UpperAtWordStarts(s)
  {
    JoinUpperFirstEach(Split(s, ' '));
    JoinSplit(s, ' ');
  }

  /** The display name for a signed-in email; never empty. */
  function DisplayName(email: string): (r: string)
    ensures r != []
  {
    var t := Trim(CapitalizeWords(BlankSeparators(LocalPart(email))));
    if t == [] then FallbackName else t
  }

  /** The local part holds something other than separators and whitespace. */
  predicate HasNameContent(local: string) {
    exists i :: 0 <= i < |local| && !IsSeparator(local[i]) && !IsJsWhitespace(local[i])
  }

  /** The untrimmed name: separators blanked, word starts upper-cased. */
  function SpacedName(local: string): (s: string)
    ensures |s| == |local|
  {
    UpperAtWordStarts(BlankSeparators(local))
  }

  /** DisplayName is the trimmed spaced name of the local part, or "User" when that is empty. */
  lemma DisplayNameUnfold(email: string)
    ensures var t := Trim(SpacedName(LocalPart(email)));
      DisplayName(email) == if t == [] then FallbackName else t
  {
    CapitalizeWordsAtWordStarts(BlankSeparators(LocalPart(email)));
  }

  /** Where each character of the spaced name comes from. */
  lemma SpacedNameAt(local: string, i: int)
    requires 0 <= i < |local|
    ensures var s := SpacedName(local);
      && !IsSeparator(s[i])
      && (IsSeparator(local[i]) ==> s[i] == ' ')
      && (!IsSeparator(local[i]) ==> s[i] == local[i] || (IsLowerAscii(local[i]) && s[i] == ToUpperAscii(local[i])))
      && (IsJsWhitespace(s[i]) <==> IsSeparator(local[i]) || IsJsWhitespace(local[i]))
      && (s[i] == ' ' <==> IsSeparator(local[i]) || local[i] == ' ')
      && (i == 0 || SpacedName(local)[i - 1] == ' ' ==> !IsLowerAscii(s[i]))
  {
    var b := BlankSeparators(local);
    var s := SpacedName(local);
    if i > 0 && s[i - 1] == ' ' {
      assert b[i - 1] == ' ';
    }
  }

  /** No character of `s` is a separator or '@'. */
  predicate FreeOfSeparators(s: string) {
    forall i :: 0 <= i < |s| ==> !IsSeparator(s[i]) && s[i] != '@'
  }

  /** No separator or '@' survives trimming the spaced name. */
  lemma SpacedNameHasNoSeparators(local: string)
    requires '@' !in local
    ensures FreeOfSeparators(Trim(SpacedName(local)))
  {
    var s := SpacedName(local);
    var t := Trim(s);
    var a := LeadingSpace(s);
    TrimSlice(s);
    forall i | 0 <= i < |t| ensures !IsSeparator(t[i]) && t[i] != '@' {
      var j := a + i;
      assert t[i] == s[j];
      SpacedNameAt(local, j);
      assert local[j] in local;
      assert local[j] != '@';
      assert s[j] == ' ' || s[j] == local[j] || IsUpperAscii(s[j]);
    }
  }

  /** The fallback name "User" has no separator or '@' in it. */
  lemma FallbackNameFree()
    ensures FreeOfSeparators(FallbackName)
  {
    forall i | 0 <= i < |FallbackName| ensures !IsSeparator(FallbackName[i]) && FallbackName[i] != '@' {
      assert FallbackName[i] in {'U', 's', 'e', 'r'};
    }
  }

  /** No digit, '.', '_', '+', '-' or '@' survives into the display name. */
  lemma {:induction false} DisplayNameHasNoSeparators(email: string)
    ensures FreeOfSeparators(DisplayName(email))
  {
    var t := Trim(SpacedName(LocalPart(email)));
    DisplayNameUnfold(email);
    if t == [] {
      FallbackNameFree();
    } else {
      SpacedNameHasNoSeparators(LocalPart(email));
    }
  }

  /** A local part of only separators and whitespace, or an empty one, yields "User". */
  lemma {:induction false} DisplayNameFallback(email: string)
    requires !HasNameContent(LocalPart(email))
    ensures DisplayName(email) == FallbackName
  {
    var local := LocalPart(email);
    var s := SpacedName(local);
    DisplayNameUnfold(email);
    forall i | 0 <= i < |s| ensures IsJsWhitespace(s[i]) {
      SpacedNameAt(local, i);
    }
  }

  /**
    When the local part has content, the name is not the fallback: it is the
    trimmed spaced name, no longer than the local part, and every character is
    a space, a character of the local part or the upper case of one.
   */
  lemma {:induction false} DisplayNameFromLocalPart(email: string)
    requires HasNameContent(LocalPart(email))
    ensures DisplayName(email) == Trim(SpacedName(LocalPart(email)))
    ensures |DisplayName(email)| <= |LocalPart(email)|
    ensures forall c :: c in DisplayName(email) ==>
      c == ' ' || c in LocalPart(email) || (IsUpperAscii(c) && ToLowerAscii(c) in LocalPart(email))
  {
    var local := LocalPart(email);
    var s := SpacedName(local);
    DisplayNameUnfold(email);
    var k :| 0 <= k < |local| && !IsSeparator(local[k]) && !IsJsWhitespace(local[k]);
    SpacedNameAt(local, k);
    var t := Trim(s);
    assert t != [];
    forall c | c in t ensures c == ' ' || c in local || (IsUpperAscii(c) && ToLowerAscii(c) in local) {
      TrimChars(s, c);
      var i :| 0 <= i < |s| && s[i] == c;
      SpacedNameAt(local, i);
      assert local[i] in local;
      if IsLowerAscii(local[i]) && c == ToUpperAscii(local[i]) {
        LowerOfUpper(local[i]);
      }
    }
  }

  /** After every space comes a character that is not a lower-case letter. */
  predicate WordsCapitalized(s: string) {
    forall i :: 0 < i < |s| && s[i - 1] == ' ' ==> !IsLowerAscii(s[i])
  }

  /** Trimming keeps the capitalisation of words that follow a space. */
  lemma TrimKeepsWordsCapitalized(s: string)
    requires WordsCapitalized(s)
    ensures WordsCapitalized(Trim(s))
  {
    var t := Trim(s);
    var a := LeadingSpace(s);
    TrimSlice(s);
    forall i | 0 < i < |t| && t[i - 1] == ' ' ensures !IsLowerAscii(t[i]) {
      assert t[i - 1] == s[a + i - 1] && t[i] == s[a + i];
    }
  }

  /** In the spaced name, every word that follows a space starts capitalised. */
  lemma SpacedNameWordsCapitalized(local: string)
    ensures WordsCapitalized(SpacedName(local))
  {
    var s := SpacedName(local);
    forall i | 0 < i < |s| && s[i - 1] == ' ' ensures !IsLowerAscii(s[i]) {
      SpacedNameAt(local, i);
    }
  }

  /** Every word of the name that follows a space starts with a character that is not a lower-case letter. */
  lemma {:induction false} DisplayNameWordsCapitalized(email: string)
    ensures WordsCapitalized(DisplayName(email))
  {
    DisplayNameUnfold(email);
    SpacedNameWordsCapitalized(LocalPart(email));
    TrimKeepsWordsCapitalized(SpacedName(LocalPart(email)));
  }

  /** The trimmed spaced name starts capitalised when the local part has no whitespace but spaces. */
  lemma SpacedNameFirstCapitalized(local: string)
    requires forall i :: 0 <= i < |local| && IsJsWhitespace(local[i]) ==> local[i] == ' '
    ensures Trim(SpacedName(local)) != [] ==> !IsLowerAscii(Trim(SpacedName(local))[0])
  {
    var s := SpacedName(local);
    var a := LeadingSpace(s);
    TrimSlice(s);
    if a < |s| {
      if a > 0 {
        SpacedNameAt(local, a - 1);
      }
      SpacedNameAt(local, a);
      assert Trim(s)[0] == s[a];
    }
  }

  /**
    The first character of the name is not a lower-case letter, provided the
    local part holds no whitespace other than the space: after a tab,
    JavaScript's `split(' ')` sees no word start.
   */
  lemma {:induction false} DisplayNameFirstCapitalized(email: string)
    requires forall c :: c in LocalPart(email) && IsJsWhitespace(c) ==> c == ' '
    ensures !IsLowerAscii(DisplayName(email)[0])
  {
    var local := LocalPart(email);
    DisplayNameUnfold(email);
    forall i | 0 <= i < |local| && IsJsWhitespace(local[i]) ensures local[i] == ' ' {
      assert local[i] in local;
    }
    SpacedNameFirstCapitalized(local);
  }
}
