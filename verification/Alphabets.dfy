/** The byte and character classes the readers branch on, written out as lists. */
module Alphabets {
  import opened Bytes
  import PatScanner
  import Highlighter

  const SMALL: seq<char> := "abcdefghijklmnopqrstuvwxyz"
  const LARGE: seq<char> := "ABCDEFGHIJKLMNOPQRSTUVWXYZ"

  // ---------- Letters ----------

  lemma SmallAt(i: nat)
    requires i < 26
    ensures |SMALL| == 26 && SMALL[i] as int == 97 + i
  {
  }

  lemma LargeAt(i: nat)
    requires i < 26
    ensures |LARGE| == 26 && LARGE[i] as int == 65 + i
  {
  }

  predicate InSmall(c: char) {
    c in SMALL
  }

  predicate InLarge(c: char) {
    c in LARGE
  }

  lemma LettersListed(c: char)
    ensures InSmall(c) <==> 'a' <= c <= 'z'
    ensures InLarge(c) <==> 'A' <= c <= 'Z'
  {
    if 'a' <= c <= 'z' {
      SmallAt(c as nat - 97);
      assert SMALL[c as nat - 97] == c;
    }
    if 'A' <= c <= 'Z' {
      LargeAt(c as nat - 65);
      assert LARGE[c as nat - 65] == c;
    }
    if InSmall(c) {
      var i :| 0 <= i < |SMALL| && SMALL[i] == c;
      SmallAt(i);
    }
    if InLarge(c) {
      var i :| 0 <= i < |LARGE| && LARGE[i] == c;
      LargeAt(i);
    }
  }

  /** The two cases of a letter are told by its place in the alphabet; nothing else changes. */
  lemma CasesOfLetters(i: nat, c: byte)
    requires i < 26
    ensures |SMALL| == |LARGE| == 26
    ensures Upper(SMALL[i]) == LARGE[i] && Lower(LARGE[i]) == SMALL[i]
    ensures !InSmall(c) ==> Upper(c) == c
    ensures !InLarge(c) ==> Lower(c) == c
    ensures Highlighter.UpperChar(SMALL[i]) == LARGE[i] && (!InSmall(c) ==> Highlighter.UpperChar(c) == c)
  {
    hide InSmall, InLarge;
    SmallAt(i);
    LargeAt(i);
    LettersListed(c);
  }

  lemma SpaceListed(c: byte)
    ensures IsSpace(c) <==> c as int in {9, 10, 11, 12, 13, 32}
  {
  }

  // ---------- PAT ----------

  predicate IsDecimal(c: char) {
    c in "0123456789"
  }

  lemma PatClasses(c: byte)
    ensures PatScanner.IsWordByte(c) <==> InSmall(c) || InLarge(c) || IsDecimal(c) || c in "_."
    ensures PatScanner.IsNameByte(c) <==> InSmall(c) || InLarge(c) || IsDecimal(c) || c == '_'
    ensures PatScanner.IsBlankByte(c) <==> c in " \t\r\n"
    ensures PatScanner.IsBracket(c) <==> c in "{}[](),"
    ensures PatScanner.IsDigit(c) <==> IsDecimal(c)
  {
    hide InSmall, InLarge;
    LettersListed(c);
  }

  lemma PatPunctuation(c: byte)
    ensures PatScanner.IsPunct(c) <==> c in "!#$%&'*+-./:;<=>?@\\^`|~"
  {
  }

  // ---------- The highlighter ----------

  lemma HighlighterClasses(c: char)
    ensures Highlighter.IsBlank(c) <==> c in " \t\r\n"
    ensures Highlighter.IsDigit(c) <==> IsDecimal(c)
    ensures Highlighter.IsWordStart(c) <==> InSmall(c) || InLarge(c) || c == '_'
    ensures Highlighter.IsWordChar(c) <==> InSmall(c) || InLarge(c) || IsDecimal(c) || c == '_'
    ensures Highlighter.IsBracketChar(c) <==> c in "{}[]"
    ensures Highlighter.EndsOperator(c) <==> InSmall(c) || InLarge(c) || IsDecimal(c) || c in "_ \t\r\n\"{}[]#;"
  {
    hide InSmall, InLarge;
    LettersListed(c);
  }
}
