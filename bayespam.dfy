/** The token-processing slice of Bayespam/bigram_bayespam.py: the word
    counter, the cleaning of words in `read_file`, and the two-state machine
    of `read_messages` that pairs consecutive tokens into bigrams. Files are
    given as their lines; messages as sequences of lines. */
module BigramBayespam {

  datatype MessageType = Regular | Spam

  /** How often a word occurred in regular and in spam messages, and the two
      probabilities the classifier later stores next to the counts. */
  class Counter {
    var counterRegular: nat
    var counterSpam: nat
    var pRegular: real
    var pSpam: real

    constructor ()
      ensures counterRegular == 0 && counterSpam == 0 && pRegular == 0.0 && pSpam == 0.0
    {
      counterRegular, counterSpam, pRegular, pSpam := 0, 0, 0.0, 0.0;
    }

    /** Count one more occurrence in a message of type `messageType`. */
    method IncrementCounter(messageType: MessageType)
      modifies this
      ensures messageType == Regular ==>
        counterRegular == old(counterRegular) + 1 && counterSpam == old(counterSpam)
      ensures messageType != Regular ==>
        counterSpam == old(counterSpam) + 1 && counterRegular == old(counterRegular)
      ensures pRegular == old(pRegular) && pSpam == old(pSpam)
    {
      if messageType == Regular {
        counterRegular := counterRegular + 1;
      } else {
        counterSpam := counterSpam + 1;
      }
    }
  }

  // ---------------------------------------------------------------------
  // Cleaning one word

  /** The characters removed from every word: punctuation, the ten digits, a
      backslash (the `\,` of the literal is not an escape), newline and tab. */
  const Punctuations: string := "|=!()-[]{};:'\"\\,<>./?@##$%^&*_~1234567890\n\t"

  /** An upper-case letter of Latin-1, the encoding the files are read in:
      A-Z, and U+00C0 .. U+00DE except the multiplication sign U+00D7. */
  predicate IsUpper(c: char) {
    var k := c as int;
    0x41 <= k <= 0x5A || (0xC0 <= k <= 0xDE && k != 0xD7)
  }

  /** `str.lower` on one Latin-1 character: an upper-case letter maps to the
      letter 32 code points above it, everything else to itself. */
  function LowerChar(c: char): (r: char)
    ensures !IsUpper(r)
    ensures IsUpper(c) ==> r as int == c as int + 32
    ensures !IsUpper(c) ==> r == c
  {
    if IsUpper(c) then (c as int + 32) as char else c
  }

  /** `str.lower` on a string of Latin-1 characters. */
  function Lower(s: string): (r: string)
    ensures |r| == |s|
  {
    seq(|s|, i requires 0 <= i < |s| => LowerChar(s[i]))
  }

  /** The characters of `s` that are not in `Punctuations`, in order. */
  function Kept(s: string): string {
    if |s| == 0 then ""
    else Kept(s[..|s| - 1]) + (if s[|s| - 1] in Punctuations then "" else [s[|s| - 1]])
  }

  /** A cleaned word: the kept characters, lower-cased. */
  function Clean(word: string): string {
    Lower(Kept(word))
  }

  /** Keeping distributes over concatenation. */
  lemma {:induction false} KeptConcat(a: string, b: string)
    ensures Kept(a + b) == Kept(a) + Kept(b)
    decreases |b|
  {
    if |b| > 0 {
      var b' := b[..|b| - 1];
      assert (a + b)[..|a + b| - 1] == a + b';
      assert (a + b)[|a + b| - 1] == b[|b| - 1];
      KeptConcat(a, b');
    } else {
      assert a + b == a;
    }
  }

  /** Keeping removes every occurrence of the removed characters and keeps
      every occurrence of all others. */
  lemma {:induction false} KeptCounts(s: string)
    ensures forall c :: multiset(Kept(s))[c] == if c in Punctuations then 0 else multiset(s)[c]
  {
    if |s| > 0 {
      var s' := s[..|s| - 1];
      KeptCounts(s');
      assert s == s' + [s[|s| - 1]];
    }
  }

  /** Keeping is idempotent. */
  lemma {:induction false} KeptIdempotent(s: string)
    ensures Kept(Kept(s)) == Kept(s)
  {
    if |s| > 0 {
      var s' := s[..|s| - 1];
      var last := s[|s| - 1];
      KeptIdempotent(s');
      var tail := if last in Punctuations then "" else [last];
      KeptConcat(Kept(s'), tail);
      if last !in Punctuations {
        assert Kept(tail) == Kept(tail[..0]) + tail;
      }
    }
  }

  /** Lower-casing is idempotent and leaves no upper-case letter. */
  lemma LowerIdempotent(s: string)
    ensures Lower(Lower(s)) == Lower(s)
    ensures forall i :: 0 <= i < |s| ==> !IsUpper(Lower(s)[i])
  {
  }

  /** A cleaned word holds no removed character and no upper-case letter,
      and a word without spaces stays without spaces. */
  lemma CleanChars(word: string)
    ensures forall c :: c in Clean(word) ==> c !in Punctuations && !IsUpper(c)
    ensures ' ' !in word ==> ' ' !in Clean(word)
  {
    KeptCounts(word);
    var k := Kept(word);
    forall i | 0 <= i < |k|
      ensures k[i] !in Punctuations
    {
      assert k[i] in multiset(k);
    }
    forall c | c in Clean(word)
      ensures c !in Punctuations && !IsUpper(c)
    {
      var i :| 0 <= i < |k| && Clean(word)[i] == c;
      LowerCharPunctuation(k[i]);
    }
    if ' ' !in word {
      forall i | 0 <= i < |k|
        ensures k[i] != ' '
      {
        assert k[i] in multiset(k);
      }
    }
  }

  /** Lower-casing never turns a character into a removed one or into a space. */
  lemma LowerCharPunctuation(c: char)
    ensures c !in Punctuations ==> LowerChar(c) !in Punctuations
    ensures c != ' ' ==> LowerChar(c) != ' '
  {
    PunctuationsAreNotLetters();
  }

  /** No removed character is a lower-case letter of Latin-1. */
  lemma PunctuationsAreNotLetters()
    ensures forall i :: 0 <= i < |Punctuations| ==>
      Punctuations[i] as int < 0x61 || 0x7B <= Punctuations[i] as int < 0xE0
  {
  }

  /** The punctuation loop and `.lower()` of lines 80-84 (and 122-126). */
  method CleanWord(word: string) returns (token: string)
    ensures token == Clean(word)
  {
    token := "";
    for i := 0 to |word|
      invariant token == Kept(word[..i])
    {
      assert word[..i + 1][..i] == word[..i];
      if word[i] !in Punctuations {
        token := token + [word[i]];
      }
    }
    assert word[..|word|] == word;
    token := Lower(token);
  }

  // ---------------------------------------------------------------------
  // Splitting a line

  /** The index of the first space of `s`. */
  function FirstSpace(s: string): (k: nat)
    requires ' ' in s
    ensures k < |s| && s[k] == ' ' && ' ' !in s[..k]
  {
    if s[0] == ' ' then 0
    else
      assert s == [s[0]] + s[1..];
      var k := 1 + FirstSpace(s[1..]);
      assert s[..k] == [s[0]] + s[1..][..k - 1];
      k
  }

  /** `line.split(" ")`: the pieces between single spaces, empty pieces
      included; there is always at least one. */
  function Split(s: string): (parts: seq<string>)
    ensures |parts| >= 1
    ensures forall i :: 0 <= i < |parts| ==> ' ' !in parts[i]
    decreases |s|
  {
    if ' ' !in s then [s]
    else
      var k := FirstSpace(s);
      [s[..k]] + Split(s[k + 1..])
  }

  /** `" ".join(parts)`. */
  function Join(parts: seq<string>): string
    requires |parts| >= 1
  {
    if |parts| == 1 then parts[0] else parts[0] + " " + Join(parts[1..])
  }

  /** Splitting loses nothing: joining the pieces gives the line back. */
  lemma {:induction false} JoinSplit(s: string)
    ensures Join(Split(s)) == s
    decreases |s|
  {
    if ' ' in s {
      var k := FirstSpace(s);
      JoinSplit(s[k + 1..]);
      var parts := Split(s);
      assert parts[0] == s[..k] && parts[1..] == Split(s[k + 1..]);
      assert s == s[..k] + " " + s[k + 1..];
    }
  }

  /** Splitting a join of space-free pieces gives the pieces back. */
  lemma {:induction false} SplitJoin(parts: seq<string>)
    requires |parts| >= 1 && forall i :: 0 <= i < |parts| ==> ' ' !in parts[i]
    ensures Split(Join(parts)) == parts
  {
    if |parts| > 1 {
      SplitJoin(parts[1..]);
      var s := Join(parts);
      var p := parts[0];
      assert s == p + " " + Join(parts[1..]);
      assert s[|p|] == ' ';
      assert s[..|p|] == p;
      assert ' ' in s;
      var k := FirstSpace(s);
      assert k == |p|;
      assert s[k + 1..] == Join(parts[1..]);
    }
  }

  // ---------------------------------------------------------------------
  // read_file

  /** The tokens of one line: every piece of the split line, cleaned. */
  function LineTokens(line: string): (ts: seq<string>)
    ensures |ts| == |Split(line)|
  {
    var parts := Split(line);
    seq(|parts|, i requires 0 <= i < |parts| => Clean(parts[i]))
  }

  /** The tokens of length at least 4, in order. */
  function Long(ts: seq<string>): seq<string> {
    if |ts| == 0 then []
    else Long(ts[..|ts| - 1]) + (if |ts[|ts| - 1]| >= 4 then [ts[|ts| - 1]] else [])
  }

  /** What `read_file` returns for a file with these lines. */
  function FileTokens(lines: seq<string>): seq<string> {
    if |lines| == 0 then []
    else FileTokens(lines[..|lines| - 1]) + Long(LineTokens(lines[|lines| - 1]))
  }

  /** A well-formed word of the word list: long enough, and without
      spaces, removed characters or upper-case letters. */
  ghost predicate Word(t: string) {
    |t| >= 4 && ' ' !in t && forall c :: c in t ==> c !in Punctuations && !IsUpper(c)
  }

  lemma {:induction false} LongWords(ts: seq<string>)
    requires forall i :: 0 <= i < |ts| ==> ' ' !in ts[i] && forall c :: c in ts[i] ==> c !in Punctuations && !IsUpper(c)
    ensures forall i :: 0 <= i < |Long(ts)| ==> Word(Long(ts)[i])
    ensures forall i :: 0 <= i < |ts| && |ts[i]| >= 4 ==> ts[i] in Long(ts)
  {
    if |ts| > 0 {
      LongWords(ts[..|ts| - 1]);
    }
  }

  /** Every token `read_file` emits is a word: at least four characters,
      no space, no removed character, no upper-case letter; and every piece
      of a line whose cleaned form is that long is emitted. */
  lemma {:induction false} FileTokensAreWords(lines: seq<string>)
    ensures forall i :: 0 <= i < |FileTokens(lines)| ==> Word(FileTokens(lines)[i])
    ensures forall l, i :: 0 <= l < |lines| && 0 <= i < |LineTokens(lines[l])| && |LineTokens(lines[l])[i]| >= 4 ==>
      LineTokens(lines[l])[i] in FileTokens(lines)
  {
    if |lines| > 0 {
      var init := lines[..|lines| - 1];
      FileTokensAreWords(init);
      var ts := LineTokens(lines[|lines| - 1]);
      var parts := Split(lines[|lines| - 1]);
      forall i | 0 <= i < |ts|
        ensures ' ' !in ts[i] && forall c :: c in ts[i] ==> c !in Punctuations && !IsUpper(c)
      {
        CleanChars(parts[i]);
      }
      LongWords(ts);
      forall l, i | 0 <= l < |lines| && 0 <= i < |LineTokens(lines[l])| && |LineTokens(lines[l])[i]| >= 4
        ensures LineTokens(lines[l])[i] in FileTokens(lines)
      {
        if l < |lines| - 1 {
          assert lines[l] == init[l];
        }
      }
    }
  }

  /** The loops of `read_file` (lines 77-87) over the lines of one file. */
  method ReadFile(lines: seq<string>) returns (tokenList: seq<string>)
    ensures tokenList == FileTokens(lines)
  {
    tokenList := [];
    for l := 0 to |lines|
      invariant tokenList == FileTokens(lines[..l])
    {
      assert lines[..l + 1][..l] == lines[..l];
      var splitLine := Split(lines[l]);
      ghost var before := tokenList;
      for idx := 0 to |splitLine|
        invariant tokenList == before + Long(LineTokens(lines[l])[..idx])
      {
        assert LineTokens(lines[l])[..idx + 1][..idx] == LineTokens(lines[l])[..idx];
        var token := CleanWord(splitLine[idx]);
        if |token| >= 4 {
          tokenList := tokenList + [token];
        }
      }
      assert LineTokens(lines[l])[..|splitLine|] == LineTokens(lines[l]);
    }
    assert lines[..|lines|] == lines;
  }

  // ---------------------------------------------------------------------
  // The bigram pairing of read_messages

  /** The pairing state: the bigram under construction and `bigram_index`. */
  datatype Pairing = Pairing(bigram: string, index: nat)

  /** The state set up once per `read_messages` call (lines 96-97). */
  const Fresh: Pairing := Pairing("", 0)

  /** One token step of lines 128-151: the new state, and the bigram printed
      at line 134 if any. The vocabulary branch of line 136 is left out of
      the step: `PairingReachable` shows it never runs. */
  function Step(p: Pairing, token: string): (Pairing, seq<string>) {
    var bigram := if p.index == 0 then p.bigram + token else p.bigram;
    var bigram := if p.index == 1 then bigram + " " + token else bigram;
    var printed := if p.index == 1 then [bigram] else [];
    var index := p.index + 1;
    if index > 1 then (Pairing("", 0), printed) else (Pairing(bigram, index), printed)
  }

  /** Feeding tokens one after another from state `p`: the final state and
      everything printed on the way. */
  function Feed(p: Pairing, tokens: seq<string>): (Pairing, seq<string>) {
    if |tokens| == 0 then (p, [])
    else
      var (q, printed) := Feed(p, tokens[..|tokens| - 1]);
      var (r, more) := Step(q, tokens[|tokens| - 1]);
      (r, printed + more)
  }

  /** Consecutive tokens paired up: the k-th bigram is tokens 2k and 2k+1
      joined by a space; an odd last token is unpaired. */
  function Pairs(tokens: seq<string>): (r: seq<string>)
    ensures |r| == |tokens| / 2
  {
    seq(|tokens| / 2, k requires 0 <= k < |tokens| / 2 => tokens[2 * k] + " " + tokens[2 * k + 1])
  }

  /** From the fresh state the machine prints exactly the pairs of
      consecutive tokens; it ends fresh after an even number of tokens and
      holding the unpaired last token after an odd number. */
  lemma {:induction false} FeedPairs(tokens: seq<string>)
    ensures Feed(Fresh, tokens).1 == Pairs(tokens)
    ensures Feed(Fresh, tokens).0 ==
      if |tokens| % 2 == 0 then Fresh else Pairing(tokens[|tokens| - 1], 1)
  {
    if |tokens| > 0 {
      var init := tokens[..|tokens| - 1];
      var last := tokens[|tokens| - 1];
      FeedPairs(init);
      assert tokens == init + [last];
      PairsGrow(init, last);
    }
  }

  /** One token more completes a pair after an odd number of tokens and
      adds none after an even number. */
  lemma PairsGrow(init: seq<string>, last: string)
    ensures |init| % 2 == 0 ==> Pairs(init + [last]) == Pairs(init)
    ensures |init| % 2 == 1 ==>
      Pairs(init + [last]) == Pairs(init) + [init[|init| - 1] + " " + last]
  {
    var tokens := init + [last];
    forall k | 0 <= k < |init| / 2
      ensures Pairs(tokens)[k] == Pairs(init)[k]
    {
      assert tokens[2 * k] == init[2 * k] && tokens[2 * k + 1] == init[2 * k + 1];
    }
  }

  /** The pairing index is 0 or 1 before every token and alternates, and
      the bigram is empty whenever the index is 0; so the guard
      `bigram_index > 1` of line 136 never holds. */
  lemma PairingReachable(tokens: seq<string>, p: Pairing)
    requires p == Feed(Fresh, tokens).0
    ensures p.index <= 1
    ensures p.index == |tokens| % 2
    ensures p.index == 0 ==> p.bigram == ""
    ensures !(p.index > 1 && |p.bigram| >= 6)
  {
    FeedPairs(tokens);
  }

  /** Feeding one token more is one step more. */
  lemma FeedStep(p: Pairing, tokens: seq<string>, t: string)
    ensures Feed(p, tokens + [t]).0 == Step(Feed(p, tokens).0, t).0
    ensures Feed(p, tokens + [t]).1 == Feed(p, tokens).1 + Step(Feed(p, tokens).0, t).1
  {
    assert (tokens + [t])[..|tokens|] == tokens;
  }

  /** Feeding two runs of tokens is feeding the second from where the
      first left off, and printing both outputs in order. */
  lemma {:induction false} FeedAppend(p: Pairing, a: seq<string>, b: seq<string>)
    ensures Feed(p, a + b).0 == Feed(Feed(p, a).0, b).0
    ensures Feed(p, a + b).1 == Feed(p, a).1 + Feed(Feed(p, a).0, b).1
  {
    if |b| > 0 {
      var b' := b[..|b| - 1];
      FeedAppend(p, a, b');
      assert (a + b)[..|a + b| - 1] == a + b';
      assert (a + b)[|a + b| - 1] == b[|b| - 1];
    } else {
      assert a + b == a;
    }
  }

  /** The tokens `read_messages` feeds for one message: every piece of every
      line, cleaned, without the length filter of `read_file`. */
  function MessageTokens(lines: seq<string>): seq<string> {
    if |lines| == 0 then []
    else MessageTokens(lines[..|lines| - 1]) + LineTokens(lines[|lines| - 1])
  }

  /** Regrouping a concatenation: a helper for the loop proof of `ReadMessages`. */
  lemma Associative(a: seq<string>, b: seq<string>, c: seq<string>)
    ensures (a + b) + c == a + (b + c)
  {
  }

  lemma MessageTokensSnoc(lines: seq<string>, l: nat)
    requires l < |lines|
    ensures MessageTokens(lines[..l + 1]) == MessageTokens(lines[..l]) + LineTokens(lines[l])
  {
    assert lines[..l + 1][..l] == lines[..l];
  }

  /** The tokens fed for a list of messages, one message after another. */
  function MessagesTokens(messages: seq<seq<string>>): seq<string> {
    if |messages| == 0 then []
    else MessagesTokens(messages[..|messages| - 1]) + MessageTokens(messages[|messages| - 1])
  }

  /** A line without spaces is one token. */
  lemma OneWordLine(w: string)
    requires ' ' !in w
    ensures LineTokens(w) == [Clean(w)]
  {
    assert Split(w) == [w];
  }

  /** A message of one line that is one word is one token. */
  lemma OneWordMessage(w: string)
    requires ' ' !in w
    ensures MessageTokens([w]) == [Clean(w)]
  {
    assert [w][..0] == [];
    OneWordLine(w);
  }

  /** The pairing state is set up once per call, not per message or line,
      so a bigram spans a message boundary: two messages of one word each
      print one bigram made of both words. */
  lemma BigramSpansMessages(first: string, second: string)
    requires ' ' !in first && ' ' !in second
    ensures Feed(Fresh, MessagesTokens([[first], [second]])).1 == [Clean(first) + " " + Clean(second)]
  {
    var tokens := [Clean(first), Clean(second)];
    assert MessagesTokens([[first], [second]]) == tokens by {
      OneWordMessage(first);
      OneWordMessage(second);
      TwoMessages([first], [second]);
    }
    FeedPairs(tokens);
    assert Pairs(tokens) == [Clean(first) + " " + Clean(second)];
  }

  /** Two messages feed the tokens of the first, then those of the second. */
  lemma TwoMessages(first: seq<string>, second: seq<string>)
    ensures MessagesTokens([first, second]) == MessageTokens(first) + MessageTokens(second)
  {
    var messages := [first, second];
    assert messages[..1] == [first];
    assert messages[..1][..0] == [];
    assert MessagesTokens([first]) == MessageTokens(first);
    assert messages[|messages| - 1] == second;
  }

  /** The spam filter's state that `read_messages` could touch. */
  class Bayespam {
    var vocab: map<string, Counter>

    constructor ()
      ensures vocab == map[]
    {
      vocab := map[];
    }

    /** `read_messages` over `messages`, the regular or the spam list as
        sequences of lines: the bigrams printed at line 134, in order. The
        method changes no state: the vocabulary is never written because
        the guard of line 136 never holds. */
    method ReadMessages(messageType: MessageType, messages: seq<seq<string>>) returns (printed: seq<string>)
      ensures printed == Pairs(MessagesTokens(messages))
    {
      var bigram := "";
      var bigramIndex: nat := 0;
      printed := [];
      ghost var fed: seq<string> := [];
      for m := 0 to |messages|
        invariant fed == MessagesTokens(messages[..m])
        invariant Pairing(bigram, bigramIndex) == Feed(Fresh, fed).0
        invariant printed == Feed(Fresh, fed).1
      {
        assert messages[..m + 1][..m] == messages[..m];
        var lines := messages[m];
        ghost var messageStart := fed;
        for l := 0 to |lines|
          invariant fed == messageStart + MessageTokens(lines[..l])
          invariant Pairing(bigram, bigramIndex) == Feed(Fresh, fed).0
          invariant printed == Feed(Fresh, fed).1
        {
          MessageTokensSnoc(lines, l);
          PairingReachable(fed, Pairing(bigram, bigramIndex));
          var next, more := PairTokens(Pairing(bigram, bigramIndex), lines[l]);
          bigram, bigramIndex := next.bigram, next.index;
          printed := printed + more;
          FeedAppend(Fresh, fed, LineTokens(lines[l]));
          Associative(messageStart, MessageTokens(lines[..l]), LineTokens(lines[l]));
          fed := fed + LineTokens(lines[l]);
        }
        assert lines[..|lines|] == lines;
      }
      assert messages[..|messages|] == messages;
      FeedPairs(fed);
    }

    /** The token loop of lines 117-151 for one line, from pairing state
        `start`: the state after the line and the bigrams printed. */
    method PairTokens(start: Pairing, line: string) returns (end: Pairing, printed: seq<string>)
      requires start.index <= 1
      ensures end == Feed(start, LineTokens(line)).0
      ensures printed == Feed(start, LineTokens(line)).1
    {
      var bigram := start.bigram;
      var bigramIndex := start.index;
      printed := [];
      var splitLine := Split(line);
      ghost var lineTokens := LineTokens(line);
      for idx := 0 to |splitLine|
        invariant bigramIndex <= 1
        invariant Pairing(bigram, bigramIndex) == Feed(start, lineTokens[..idx]).0
        invariant printed == Feed(start, lineTokens[..idx]).1
      {
        var token := CleanWord(splitLine[idx]);
        ghost var p := Pairing(bigram, bigramIndex);
        ghost var out := printed;
        if bigramIndex == 0 {
          bigram := bigram + token;
        }
        if bigramIndex == 1 {
          bigram := bigram + " ";
          bigram := bigram + token;
          printed := printed + [bigram];
        }
        if bigramIndex > 1 && |bigram| >= 6 {
          assert false;
        }
        bigramIndex := bigramIndex + 1;
        if bigramIndex > 1 {
          bigram := "";
          bigramIndex := 0;
        }
        assert Pairing(bigram, bigramIndex) == Step(p, token).0 && printed == out + Step(p, token).1;
        FeedStep(start, lineTokens[..idx], token);
        assert lineTokens[..idx + 1] == lineTokens[..idx] + [token];
      }
      assert lineTokens[..|splitLine|] == lineTokens;
      end := Pairing(bigram, bigramIndex);
    }
  }
}
