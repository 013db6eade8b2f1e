/** Where keys are split into words, and which keys are masked: laws over whole families of keys. */
module RedactedKeys {
  import opened Options
  import opened JsonPatch
  import opened Redactor
  import opened Sequences
  import opened Strings

  // ---- tokens of a key, one character at a time ----

  /** The tokens still to come are those of what is left of the key. */
  lemma {:induction false} OnlyTheRestMatters(key: string, i: nat, current: string, lower: bool)
    requires i <= |key|
    ensures TokensFrom(key, i, current, lower) == TokensFrom(key[i..], 0, current, lower)
    decreases |key| - i
  {
    if i < |key| {
      var rest := key[i..];
      assert rest[0] == key[i] && rest[1..] == key[i + 1..];
      assert i + 1 < |key| ==> rest[1] == key[i + 1];
      forall c: string, p: bool
        ensures TokensFrom(key, i + 1, c, p) == TokensFrom(rest, 1, c, p)
      {
        OnlyTheRestMatters(key, i + 1, c, p);
        OnlyTheRestMatters(rest, 1, c, p);
      }
    }
  }

  lemma TokensOfCons(c: char, rest: string, current: string, lower: bool)
    ensures var key := [c] + rest;
            TokensFrom(key, 0, current, lower) ==
            if !IsAlnum(c) then Flushed(current) + TokensFrom(rest, 0, "", false)
            else if current != "" && IsUpper(c) && (lower || (rest != "" && IsLower(rest[0])))
            then Flushed(current) + TokensFrom(rest, 0, [Lower(c)], IsLower(c))
            else TokensFrom(rest, 0, current + [Lower(c)], IsLower(c))
  {
    var key := [c] + rest;
    assert key[1..] == rest;
    OnlyTheRestMatters(key, 1, "", false);
    OnlyTheRestMatters(key, 1, [Lower(c)], IsLower(c));
    OnlyTheRestMatters(key, 1, current + [Lower(c)], IsLower(c));
  }

  predicate AllLower(s: string) {
    forall i :: 0 <= i < |s| ==> IsLower(s[i])
  }

  predicate AllUpper(s: string) {
    forall i :: 0 <= i < |s| ==> IsUpper(s[i])
  }

  /** A stretch of lower-case letters and digits is never split. */
  lemma {:induction false} PlainStretch(word: string, rest: string, current: string, lower: bool)
    requires OneWord(word)
    ensures TokensFrom(word + rest, 0, current, lower) ==
            TokensFrom(rest, 0, current + word, if word == "" then lower else IsLower(word[|word| - 1]))
    decreases |word|
  {
    if word == "" {
      assert word + rest == rest && current + word == current;
    } else {
      assert word + rest == [word[0]] + (word[1..] + rest);
      TokensOfCons(word[0], word[1..] + rest, current, lower);
      PlainStretch(word[1..], rest, current + [word[0]], IsLower(word[0]));
      assert current + [word[0]] + word[1..] == current + word;
    }
  }

  // ---- snake_case, kebab-case and spaces ----

  function Joined(words: seq<string>, sep: char): string
    decreases |words|
  {
    if words == [] then "" else if |words| == 1 then words[0] else words[0] + ([sep] + Joined(words[1..], sep))
  }

  /** Words joined by anything that is neither letter nor digit come apart again. */
  lemma {:induction false} JoinedWordsSplit(words: seq<string>, sep: char)
    requires !IsAlnum(sep) && forall w <- words :: w != "" && OneWord(w)
    ensures KeyTokens(Joined(words, sep)) == words
    decreases |words|
  {
    if |words| == 1 {
      PlainStretch(words[0], "", "", false);
      assert words[0] + "" == words[0] && "" + words[0] == words[0];
    } else if |words| > 1 {
      assert words[0] in words && forall w <- words[1..] :: w in words;
      var rest := Joined(words[1..], sep);
      PlainStretch(words[0], [sep] + rest, "", false);
      assert "" + words[0] == words[0];
      TokensOfCons(sep, rest, words[0], IsLower(words[0][|words[0]| - 1]));
      JoinedWordsSplit(words[1..], sep);
      assert [words[0]] + words[1..] == words;
    }
  }

  // ---- camelCase ----

  function Upper(c: char): char {
    if IsLower(c) then (c as int - 'a' as int + 'A' as int) as char else c
  }

  function Capital(word: string): string
    requires word != ""
  {
    [Upper(word[0])] + word[1..]
  }

  function Capitals(words: seq<string>): string
    requires forall i :: 0 <= i < |words| ==> words[i] != ""
    decreases |words|
  {
    if words == [] then "" else Capital(words[0]) + Capitals(words[1..])
  }

  predicate Words(words: seq<string>) {
    forall i :: 0 <= i < |words| ==> words[i] != "" && AllLower(words[i])
  }

  /** No two neighbours are single letters; those would read as one acronym. */
  predicate NoInitials(words: seq<string>) {
    forall i :: 0 <= i < |words| - 1 ==> |words[i]| > 1 || |words[i + 1]| > 1
  }

  lemma CapitalStarts(word: string, rest: string, current: string, lower: bool)
    requires word != "" && AllLower(word) && current != "" && (lower || |word| > 1)
    ensures TokensFrom(Capital(word) + rest, 0, current, lower) == [current] + TokensFrom(rest, 0, word, |word| > 1)
  {
    assert Capital(word) + rest == [Upper(word[0])] + (word[1..] + rest);
    assert |word| > 1 ==> (word[1..] + rest)[0] == word[1];
    TokensOfCons(Upper(word[0]), word[1..] + rest, current, lower);
    PlainStretch(word[1..], rest, [word[0]], false);
    assert [word[0]] + word[1..] == word;
    assert |word| > 1 ==> word[1..][|word[1..]| - 1] == word[|word| - 1];
  }

  lemma FirstOfWords(words: seq<string>)
    requires Words(words) && NoInitials(words) && words != []
    ensures words[0] != "" && AllLower(words[0]) && Words(words[1..]) && NoInitials(words[1..])
    ensures words[1..] == [] || |words[0]| > 1 || |words[1..][0]| > 1
    ensures Capitals(words) == Capital(words[0]) + Capitals(words[1..])
  {
    var rest := words[1..];
    assert forall i :: 0 <= i < |rest| ==> rest[i] == words[i + 1];
  }

  lemma {:induction false} CapitalsSplit(words: seq<string>, current: string, lower: bool)
    requires Words(words) && NoInitials(words) && current != ""
    requires lower || words == [] || |words[0]| > 1
    ensures TokensFrom(Capitals(words), 0, current, lower) == [current] + words
    decreases |words|
  {
    if words == [] {
      assert [current] + [] == Flushed(current);
    } else {
      var word, rest := words[0], words[1..];
      FirstOfWords(words);
      CapitalStarts(word, Capitals(rest), current, lower);
      CapitalsSplit(rest, word, |word| > 1);
      assert [word] + rest == words;
    }
  }

  /** Words written in camelCase come apart again, single letters included unless two of them meet. */
  lemma CamelCaseSplits(first: string, words: seq<string>)
    requires first != "" && OneWord(first) && IsLower(first[|first| - 1]) && Words(words) && NoInitials(words)
    ensures KeyTokens(first + Capitals(words)) == [first] + words
  {
    PlainStretch(first, Capitals(words), "", false);
    assert "" + first == first;
    CapitalsSplit(words, first, true);
  }

  lemma {:induction false} UpperStretch(word: string, rest: string, current: string)
    requires AllUpper(word) && (rest != "" ==> !IsLower(rest[0]))
    ensures TokensFrom(word + rest, 0, current, false) == TokensFrom(rest, 0, current + LowerAll(word), false)
    decreases |word|
  {
    if word == "" {
      assert word + rest == rest && current + LowerAll(word) == current;
    } else {
      assert word + rest == [word[0]] + (word[1..] + rest);
      assert word[1..] + rest != "" ==> !IsLower((word[1..] + rest)[0]) by {
        if |word| > 1 {
          assert (word[1..] + rest)[0] == word[1];
        }
      }
      TokensOfCons(word[0], word[1..] + rest, current, false);
      UpperStretch(word[1..], rest, current + [Lower(word[0])]);
      assert current + [Lower(word[0])] + LowerAll(word[1..]) == current + LowerAll(word);
    }
  }

  /** An acronym is one word, and the capital of the word behind it belongs to that word. */
  lemma AcronymSplits(acronym: string, words: seq<string>)
    requires acronym != "" && AllUpper(acronym) && Words(words) && NoInitials(words)
    requires words == [] || |words[0]| > 1
    ensures KeyTokens(acronym + Capitals(words)) == [LowerAll(acronym)] + words
  {
    var rest := Capitals(words);
    if words != [] {
      assert words[0] in words;
      assert rest[0] == Upper(words[0][0]);
    }
    UpperStretch(acronym, rest, "");
    assert "" + LowerAll(acronym) == LowerAll(acronym);
    CapitalsSplit(words, LowerAll(acronym), false);
  }

  // ---- which keys name structured PII ----

  /** One word of the list, or one of the two phrases, among the words. */
  predicate NamesPii(words: seq<string>) {
    || "ssn" in words || "phone" in words || "telephone" in words || "tel" in words
    || "dob" in words || "address" in words || "postal" in words || "zip" in words
    || (exists i :: 0 <= i < |words| - 1 && words[i] == "social" && words[i + 1] == "security")
    || (exists i :: 0 <= i < |words| - 2 && words[i] == "date" && words[i + 1] == "of" && words[i + 2] == "birth")
  }

  lemma PiiIsInTheTokens(key: string)
    ensures ContainsStructuredPiiKey(key) <==> NamesPii(KeyTokens(key))
  {
    WordIsInTheTokens(KeyTokens(key));
    PairIsInTheTokens(KeyTokens(key));
    TripleIsInTheTokens(KeyTokens(key));
  }

  lemma PairIsInTheTokens(tokens: seq<string>)
    ensures (exists i :: 0 <= i <= |tokens| && ["social", "security"] <= tokens[i..]) <==>
              exists i :: 0 <= i < |tokens| - 1 && tokens[i] == "social" && tokens[i + 1] == "security"
  {
    if i :| 0 <= i <= |tokens| && ["social", "security"] <= tokens[i..] {
      assert tokens[i] == tokens[i..][0] && tokens[i + 1] == tokens[i..][1];
    }
    if i :| 0 <= i < |tokens| - 1 && tokens[i] == "social" && tokens[i + 1] == "security" {
      assert ["social", "security"] <= tokens[i..];
    }
  }

  lemma TripleIsInTheTokens(tokens: seq<string>)
    ensures (exists i :: 0 <= i <= |tokens| && ["date", "of", "birth"] <= tokens[i..]) <==>
              exists i :: 0 <= i < |tokens| - 2 && tokens[i] == "date" && tokens[i + 1] == "of" &&
                tokens[i + 2] == "birth"
  {
    if i :| 0 <= i <= |tokens| && ["date", "of", "birth"] <= tokens[i..] {
      assert tokens[i] == tokens[i..][0] && tokens[i + 1] == tokens[i..][1] && tokens[i + 2] == tokens[i..][2];
    }
    if i :| 0 <= i < |tokens| - 2 && tokens[i] == "date" && tokens[i + 1] == "of" && tokens[i + 2] == "birth" {
      assert ["date", "of", "birth"] <= tokens[i..];
    }
  }

  lemma WordIsInTheTokens(tokens: seq<string>)
    ensures (exists i :: 0 <= i < |tokens| && StructuredWord(tokens[i])) <==>
              || "ssn" in tokens || "phone" in tokens || "telephone" in tokens || "tel" in tokens
              || "dob" in tokens || "address" in tokens || "postal" in tokens || "zip" in tokens
  {
    if w :| w in tokens && StructuredWord(w) {
      var i :| 0 <= i < |tokens| && tokens[i] == w;
      assert StructuredWord(tokens[i]);
    }
  }

  /** Written with separators, a key is structured PII exactly when its words are. */
  lemma JoinedKeyIsPiiIff(words: seq<string>, sep: char)
    requires !IsAlnum(sep) && forall w <- words :: w != "" && OneWord(w)
    ensures ContainsStructuredPiiKey(Joined(words, sep)) <==> NamesPii(words)
  {
    JoinedWordsSplit(words, sep);
    PiiIsInTheTokens(Joined(words, sep));
  }

  /** Written in camelCase too. */
  lemma CamelKeyIsPiiIff(first: string, words: seq<string>)
    requires first != "" && OneWord(first) && IsLower(first[|first| - 1]) && Words(words) && NoInitials(words)
    ensures ContainsStructuredPiiKey(first + Capitals(words)) <==> NamesPii([first] + words)
  {
    CamelCaseSplits(first, words);
    PiiIsInTheTokens(first + Capitals(words));
  }

  // ---- which keys are masked ----

  lemma LowerAllConcat(a: string, b: string)
    ensures LowerAll(a + b) == LowerAll(a) + LowerAll(b)
  {
  }

  /** The credential words match anywhere in a key, in any case. */
  lemma CredentialWordsMatchAnywhere(before: string, word: string, after: string)
    requires LowerAll(word) in ["password", "email", "token", "secret", "card"]
    ensures IsSensitiveKey(before + word + after)
  {
    var key := before + word + after;
    LowerAllConcat(before + word, after);
    LowerAllConcat(before, word);
    var lower := LowerAll(key);
    assert LowerAll(word) <= lower[|before|..];
    assert Contains(lower, LowerAll(word));
  }

  lemma {:induction false} LowerOfPlain(s: string)
    requires OneWord(s)
    ensures LowerAll(s) == s
  {
  }

  /** The short ones match whole keys only: for a key of one word this is the whole list. */
  lemma OneWordIsSensitiveIff(key: string)
    requires OneWord(key) && key != ""
    ensures IsSensitiveKey(key) <==>
              || Contains(key, "password") || Contains(key, "email") || Contains(key, "token")
              || Contains(key, "secret") || Contains(key, "card")
              || key in ["passwd", "authorization", "auth", "cc", "cvv", "cvc"]
              || key in ["ssn", "phone", "telephone", "tel", "dob", "address", "postal", "zip"]
  {
    LowerOfPlain(key);
    WholeWordsOnly(key);
    forall word | word in ["password", "email", "token", "secret", "card"] && key == word
      ensures Contains(key, word)
    {
      assert word <= key[0..];
    }
    assert key != "credit_card" by {
      assert "credit_card"[6] == '_' && !IsAlnum('_');
    }
  }

  /** A member of an object: masked under a sensitive key and, in tool arguments, under the keys of typed text. */
  lemma MemberIsRedacted(text: string -> string, members: map<string, Json>, k: string, toolArgs: bool)
    requires k in members
    ensures var r := Redact(text, Obj(members), None, toolArgs);
            var lower := LowerAll(k);
            var typed := lower == "value" || lower == "text" || (exists stem: string :: lower == stem + "_text");
            && r.Obj? && r.members.Keys == members.Keys
            && (if IsSensitiveKey(k) || (toolArgs && typed) then r.members[k] == Str("***")
                else RedactionOf(text, members[k], r.members[k], toolArgs))
  {
    var lower := LowerAll(k);
    if |lower| >= 5 && lower[|lower| - 5..] == "_text" {
      assert lower == lower[..|lower| - 5] + "_text";
    }
    if stem: string :| lower == stem + "_text" {
      assert lower[|lower| - 5..] == "_text";
    }
    if !Masked(k, toolArgs) {
      RedactMeansRedaction(text, members[k], Some(k), toolArgs);
    }
  }
}
