/** Response post-processing (backend/app/gita_response.py): the generated
    text is cleaned, its whitespace collapsed, cut to 40 words, and joined
    with a Bhagavad Gita quote chosen for the detected emotion.

    The text generator, the regular expressions that strip the echoed
    prompt, and `random.choice` are parameters: the generator either
    raises or returns a raw text, the echo-stripping step is any function
    of the user input and the raw text, and the random choice is an index
    `pick` into the list (every element is reachable, see `PickCovers`). */
module GitaResponse {
  import opened Text

  // The longer quotes are written as two literals joined; the text is the
  // same. The verifier reads the first character of a short literal
  // directly, but not of a long one, and the quote lemmas below need it.
  const SadnessQuotes: seq<string> := [
    "Do not grieve, for the wise lament " + "neither for the living nor the dead. (Gita 2.11)",
    "Even sorrow transforms the heart " + "towards strength. \U{1F33F}"
  ]
  const JoyQuotes: seq<string> := [
    "Your joy is divine when it flows " + "from within. \U{1F338}",
    "True joy arises from self-realization, " + "not from results. (Gita 5.22)"
  ]
  const AngerQuotes: seq<string> := [
    "From anger comes delusion, and from " + "delusion loss of memory. (Gita 2.63)",
    "Peace is born when anger subsides. \U{1F33C}"
  ]
  const FearQuotes: seq<string> := [
    "Fear fades where faith grows. " + "(Gita 4.10)",
    "Be fearless, for I am with you " + "always. (Gita 9.22)"
  ]
  const DefaultQuotes: seq<string> := [
    "Perform your duty without attachment " + "to results. (Gita 2.47)",
    "I am here, my friend. Speak your " + "heart freely. \U{1F549}\U{FE0F}"
  ]

  /** `GITA_QUOTES`: the quotes for each emotion, and the "default" ones. */
  const GitaQuotes: map<string, seq<string>> := map[
    "sadness" := SadnessQuotes,
    "joy" := JoyQuotes,
    "anger" := AngerQuotes,
    "fear" := FearQuotes,
    "default" := DefaultQuotes
  ]

  /** Responses longer than this many words are cut. */
  const MaxWords := 40

  /** A non-empty list of non-empty quotes with no whitespace at their
      ends. */
  ghost predicate CleanQuotes(qs: seq<string>) {
    |qs| > 0 && forall i :: 0 <= i < |qs| ==> qs[i] != [] && NoEdgeSpace(qs[i])
  }

  ghost predicate WellFormedQuotes(m: map<string, seq<string>>) {
    forall key :: key in m ==> CleanQuotes(m[key])
  }

  lemma SadnessQuotesClean()
    ensures CleanQuotes(SadnessQuotes)
  {
    var a, b := SadnessQuotes[0], SadnessQuotes[1];
    assert a[0] == 'D' && a[|a| - 1] == ')' && b[0] == 'E' && b[|b| - 1] == '\U{1F33F}';
  }

  lemma JoyQuotesClean()
    ensures CleanQuotes(JoyQuotes)
  {
    var a, b := JoyQuotes[0], JoyQuotes[1];
    assert a[0] == 'Y' && a[|a| - 1] == '\U{1F338}' && b[0] == 'T' && b[|b| - 1] == ')';
  }

  lemma AngerQuotesClean()
    ensures CleanQuotes(AngerQuotes)
  {
    var a, b := AngerQuotes[0], AngerQuotes[1];
    assert a[0] == 'F' && a[|a| - 1] == ')' && b[0] == 'P' && b[|b| - 1] == '\U{1F33C}';
  }

  lemma FearQuotesClean()
    ensures CleanQuotes(FearQuotes)
  {
    var a, b := FearQuotes[0], FearQuotes[1];
    assert a[0] == 'F' && a[|a| - 1] == ')' && b[0] == 'B' && b[|b| - 1] == ')';
  }

  lemma DefaultQuotesClean()
    ensures CleanQuotes(DefaultQuotes)
  {
    var a, b := DefaultQuotes[0], DefaultQuotes[1];
    assert a[0] == 'P' && a[|a| - 1] == ')' && b[0] == 'I' && b[|b| - 1] == '\U{FE0F}';
  }

  /** Every quote list is non-empty and every quote is non-empty text with
      no whitespace at its ends. */
  lemma QuotesWellFormed()
    ensures WellFormedQuotes(GitaQuotes) && "default" in GitaQuotes
  {
    SadnessQuotesClean();
    JoyQuotesClean();
    AngerQuotesClean();
    FearQuotesClean();
    DefaultQuotesClean();
  }

  /** `GITA_QUOTES.get(emotion, GITA_QUOTES["default"])`. */
  function QuotesFor(emotion: string): (qs: seq<string>)
    ensures |qs| > 0
    ensures emotion in GitaQuotes ==> qs == GitaQuotes[emotion]
    ensures emotion !in GitaQuotes ==> qs == GitaQuotes["default"]
    ensures forall q :: q in qs ==> q != [] && NoEdgeSpace(q)
  {
    QuotesWellFormed();
    if emotion in GitaQuotes then GitaQuotes[emotion] else GitaQuotes["default"]
  }

  /** `random.choice(qs)`, with the random source as the index `pick`. */
  function Pick(qs: seq<string>, pick: nat): (q: string)
    requires |qs| > 0
    ensures q in qs
  {
    qs[pick % |qs|]
  }

  /** Every element of the list is a possible choice. */
  lemma PickCovers(qs: seq<string>, q: string)
    requires q in qs
    ensures exists pick: nat :: Pick(qs, pick) == q
  {
    var i :| 0 <= i < |qs| && qs[i] == q;
    assert Pick(qs, i) == q;
  }

  /** `re.sub(r"\s+", " ", s)`: every maximal whitespace run becomes one
      space. */
  function Squash(s: string): (r: string)
    ensures NoDoubleSpace(r) && OnlyPlainSpace(r)
    ensures r == [] <==> s == []
    ensures s != [] ==> (IsSpace(r[0]) <==> IsSpace(s[0]))
    ensures s != [] ==> (IsSpace(r[|r| - 1]) <==> IsSpace(s[|s| - 1]))
    decreases |s|
  {
    if s == [] then []
    else if IsSpace(s[0]) then
      var t := TrimLeft(s);
      assert t != [] ==> t[|t| - 1] == s[|s| - 1];
      " " + Squash(t)
    else
      var u := s[1..];
      assert u != [] ==> u[|u| - 1] == s[|s| - 1];
      [s[0]] + Squash(u)
  }

  /** The substitution keeps every non-whitespace character in order, so
      the words are the same: `re.sub(r"\s+", " ", s).split() == s.split()`. */
  lemma {:induction false} WordsOfSquash(s: string)
    ensures Words(Squash(s)) == Words(s)
    decreases |s|
  {
    if s != [] {
      if IsSpace(s[0]) {
        var t := TrimLeft(s);
        assert |t| < |s|;
        WordsOfSquash(t);
        WordsAfterSpace(' ', Squash(t));
        WordsOfTrimLeft(s);
      } else {
        var u := s[1..];
        WordsOfSquash(u);
        ConsSameWords(s[0], u, Squash(u));
        assert s == [s[0]] + u;
      }
    }
  }

  /** `re.sub(r"\s+", " ", s).strip()`. It is `" ".join(s.split())`: the
      words of `s`, in order, separated by single spaces, so it has the
      same words as `s`. */
  function Collapse(s: string): (r: string)
    ensures r == JoinSpace(Words(s))
    ensures Words(r) == Words(s)
  {
    var r := Strip(Squash(s));
    StripKeepsSpacing(Squash(s));
    WordsOfStrip(Squash(s));
    WordsOfSquash(s);
    CleanIsJoin(r);
    WordsOfJoin(Words(s));
    r
  }

  /** The collapsed text has no whitespace at its ends, never two
      whitespace characters in a row, and only plain spaces. */
  lemma CollapseIsClean(s: string)
    ensures NoEdgeSpace(Collapse(s)) && NoDoubleSpace(Collapse(s)) && OnlyPlainSpace(Collapse(s))
  {
    StripKeepsSpacing(Squash(s));
  }

  /** A string whose whitespace is already single plain spaces is left
      alone by the substitution. */
  lemma {:induction false} SquashFixes(t: string)
    requires NoDoubleSpace(t) && OnlyPlainSpace(t)
    ensures Squash(t) == t
  {
    if t != [] {
      var u := t[1..];
      SpacingOfTail(t);
      SquashFixes(u);
      if IsSpace(t[0]) {
        assert TrimLeft(u) == u;
        assert Squash(t) == " " + Squash(u);
        assert t == [t[0]] + u && t[0] == ' ';
      } else {
        assert Squash(t) == [t[0]] + Squash(u);
        assert t == [t[0]] + u;
      }
    }
  }

  /** Collapsing twice is collapsing once. */
  lemma CollapseIdempotent(s: string)
    ensures Collapse(Collapse(s)) == Collapse(s)
  {
    var c := Collapse(s);
    CollapseIsClean(s);
    SquashFixes(c);
    StripNoEdgeSpace(c);
  }

  /** Joining words and appending a suffix that is itself free of
      whitespace splits back into the same words, the last one extended. */
  lemma TruncatedWords(ws: seq<string>, tail: string)
    requires |ws| > 0 && forall i :: 0 <= i < |ws| ==> IsWord(ws[i])
    requires forall i :: 0 <= i < |tail| ==> !IsSpace(tail[i])
    ensures Words(JoinSpace(ws) + tail) == ws[..|ws| - 1] + [ws[|ws| - 1] + tail]
  {
    var vs := ws[..|ws| - 1] + [ws[|ws| - 1] + tail];
    JoinAppend(ws, tail);
    var last := ws[|ws| - 1] + tail;
    assert IsWord(last) by {
      forall i | 0 <= i < |last| ensures !IsSpace(last[i]) {
        if i >= |ws[|ws| - 1]| {
          assert last[i] == tail[i - |ws[|ws| - 1]|];
        }
      }
    }
    assert forall i :: 0 <= i < |vs| ==> IsWord(vs[i]) by {
      forall i | 0 <= i < |vs| ensures IsWord(vs[i]) {
        if i < |ws| - 1 {
          assert vs[i] == ws[i];
        }
      }
    }
    WordsOfJoin(vs);
  }

  /** `if len(s.split()) > 40: s = " ".join(s.split()[:40]) + "..."`.
      The result never has more than 40 words: either it is unchanged, or
      it is the first 40 words, separated by single spaces, with "..." glued
      to the last one. */
  function Truncate(s: string): (r: string)
    ensures |Words(s)| <= MaxWords ==> r == s
    ensures |Words(s)| > MaxWords ==>
              Words(r) == Words(s)[..MaxWords - 1] + [Words(s)[MaxWords - 1] + "..."]
    ensures |Words(s)| > MaxWords ==> r == JoinSpace(Words(r))
    ensures |Words(r)| <= MaxWords
  {
    var ws := Words(s);
    if |ws| > MaxWords then
      var kept := ws[..MaxWords];
      TruncatedWords(kept, "...");
      JoinAppend(kept, "...");
      JoinSpace(kept) + "..."
    else s
  }

  /** The first character of a join is the first character of its first
      word. */
  lemma JoinStartsWithFirstWord(ws: seq<string>)
    requires |ws| > 0 && IsWord(ws[0])
    ensures |JoinSpace(ws)| > 0 && JoinSpace(ws)[0] == ws[0][0]
  {
  }

  /** Truncating a clean text keeps it free of whitespace at its ends. */
  lemma TruncateKeepsEdges(s: string)
    requires NoEdgeSpace(s)
    ensures NoEdgeSpace(Truncate(s))
  {
    var ws := Words(s);
    if |ws| > MaxWords {
      JoinStartsWithFirstWord(ws[..MaxWords]);
    }
  }

  /** `f"{response}\n\n{quote}".strip()`. */
  function Compose(response: string, quote: string): string {
    Strip(response + "\n\n" + quote)
  }

  /** The response and the quote separated by a blank line, or the quote
      alone when there is no response. */
  function Joined(response: string, quote: string): string {
    if response == [] then quote else response + "\n\n" + quote
  }

  /** With a clean response and quote, the final strip only matters when
      the response is empty: then the result is just the quote. */
  lemma ComposeShape(response: string, quote: string)
    requires NoEdgeSpace(response)
    requires quote != [] && NoEdgeSpace(quote)
    ensures Compose(response, quote) == Joined(response, quote)
  {
    var full := response + "\n\n" + quote;
    if response == [] {
      assert full[1..] == "\n" + quote;
      assert full[1..][1..] == quote;
      assert TrimLeft(full) == quote;
    } else {
      assert full[0] == response[0];
      assert full[|full| - 1] == quote[|quote| - 1];
      StripNoEdgeSpace(full);
    }
  }

  /** What the text generator does with the prompt. */
  datatype Generation = Generated(text: string) | Raised

  /** The prompt handed to the generator. */
  function Prompt(userInput: string): string {
    "You are Lord Krishna, offering wisdom to a friend who says: '" + userInput + "' Krishna Says...."
  }

  /** The success path of `krishna_response` after the echo is stripped:
      collapse, truncate, pick a quote for the emotion, join and strip. The
      final strip leaves the joined text as it is, and drops the blank line
      when the response is empty. */
  function Finish(cleaned: string, emotion: string, pick: nat): (r: string)
    ensures var response := Truncate(Collapse(cleaned));
            exists q :: q in QuotesFor(emotion) && r == Joined(response, q)
  {
    var response := Collapse(cleaned);
    var response' := Truncate(response);
    var quote := Pick(QuotesFor(emotion), pick);
    CollapseIsClean(cleaned);
    TruncateKeepsEdges(response);
    ComposeShape(response', quote);
    var r := Compose(response', quote);
    assert quote in QuotesFor(emotion) && r == Joined(response', quote);
    r
  }

  /** `krishna_response(user_input, emotion)`. On success the result is
      the cleaned, collapsed, truncated response joined to some quote for
      the emotion (just the quote when the response is empty); when the
      generator raises, it is some default quote. A call that leaves out
      the emotion, `krishna_response(user_input)`, is
      `KrishnaResponse(userInput, "default", ...)`. */
  function KrishnaResponse(userInput: string, emotion: string,
                           generate: string -> Generation,
                           stripEcho: (string, string) -> string,
                           pick: nat): (r: string)
    ensures generate(Prompt(userInput)).Raised? ==> r in GitaQuotes["default"]
    ensures generate(Prompt(userInput)).Generated? ==>
              var response := Truncate(Collapse(stripEcho(userInput, generate(Prompt(userInput)).text)));
              && |Words(response)| <= MaxWords
              && exists q :: q in QuotesFor(emotion) && r == Joined(response, q)
  {
    match generate(Prompt(userInput))
    case Raised => Pick(QuotesFor("default"), pick)
    case Generated(raw) => Finish(stripEcho(userInput, raw), emotion, pick)
  }
}
