/** The bot's own handlers: the "tate" reply with its per-user cooldown, the splitting of the
    `/languages` list into messages, and the argument clean-up of `/exchangerate`, `/weather`
    and `/time`. Sending is modelled by returning what would be sent; the clock is `now`. */
module Bot {
  import opened Strings
  import SecurityPatterns

  // ---------------------------------------------------------------- the tate trigger

  /** `(?<!\w)tate(?!\w)(?=\s|[.!?,;]|\b)`, ignoring case, at position `i` of `t`. */
  predicate TateAt(t: string, i: int) {
    && 0 <= i && i + 4 <= |t|
    && Lower(t[i..i + 4]) == "tate"
    && (i == 0 || !IsWordChar(t[i - 1]))
    && (i + 4 == |t| || !IsWordChar(t[i + 4]))
    && ((i + 4 < |t| && (IsSpace(t[i + 4]) || t[i + 4] in ".!?,;")) || SecurityPatterns.WordBoundary(t, i + 4))
  }

  /** The pattern searched in the stripped message. */
  predicate MentionsTate(content: string) {
    var t := Strip(content);
    exists i :: 0 <= i <= |t| && TateAt(t, i)
  }

  /** The last lookahead adds nothing: after a word character that no word character follows
      there is always a word boundary. */
  lemma TateLookaheadRedundant(t: string, i: int)
    requires 0 <= i && i + 4 <= |t| && Lower(t[i..i + 4]) == "tate"
    requires i == 0 || !IsWordChar(t[i - 1])
    requires i + 4 == |t| || !IsWordChar(t[i + 4])
    ensures TateAt(t, i)
  {
    assert Lower(t[i..i + 4])[3] == 'e';
    assert IsWordChar(t[i + 3]);
  }

  const TateCooldownSeconds := 1800

  const CooldownMessage := "\U{1F57A} The Bottom G is exhausted from all the Bottom-G'ing, give him half 'n hour or so!"

  const TateGif := "https://media1.tenor.com/m/fyrqnSBR4gcAAAAd/bottom-g-andrew-tate.gif"

  datatype Message = Message(authorId: int, content: string)

  /** A user who triggered the reply less than the cooldown ago is still cooling down. */
  predicate CoolingDown(last: map<int, int>, user: int, now: int) {
    user in last && now - last[user] < TateCooldownSeconds
  }

  /** What `on_message` sends for a message (if anything) and the trigger times afterwards. */
  function TateStep(last: map<int, int>, botId: int, m: Message, now: int): (res: (Option<string>, map<int, int>))
    ensures res.0.None? ==> res.1 == last
    ensures res.0 == Some(CooldownMessage) ==> res.1 == last
    ensures res.0 == Some(TateGif) ==> res.1 == last[m.authorId := now]
    ensures res.0.Some? <==> m.authorId != botId && MentionsTate(m.content)
    ensures res.0.Some? ==> res.0 == Some(if CoolingDown(last, m.authorId, now) then CooldownMessage else TateGif)
  {
    if m.authorId == botId then (None, last)
    else if !MentionsTate(m.content) then (None, last)
    else if CoolingDown(last, m.authorId, now) then (Some(CooldownMessage), last)
    else (Some(TateGif), last[m.authorId := now])
  }

  /** Only the author's entry can change. */
  lemma TateStepTouchesOnlyAuthor(last: map<int, int>, botId: int, m: Message, now: int, other: int)
    requires other != m.authorId
    ensures var next := TateStep(last, botId, m, now).1;
      (other in next <==> other in last) && (other in last ==> next[other] == last[other])
  {
  }

  /** The cooldown works: after the GIF is sent to a user at `t`, the next mention by that user
      gets the cooldown message if it comes within 1800 seconds, and the GIF again after. */
  lemma TateCooldownAfterGif(last: map<int, int>, botId: int, m: Message, t: int, later: Message, t2: int)
    requires TateStep(last, botId, m, t).0 == Some(TateGif)
    requires later.authorId == m.authorId && MentionsTate(later.content) && t <= t2
    ensures var next := TateStep(last, botId, m, t).1;
      TateStep(next, botId, later, t2).0 == Some(if t2 - t < TateCooldownSeconds then CooldownMessage else TateGif)
  {
  }

  /** Two GIFs for the same user are at least the cooldown apart, whatever passes in between. */
  lemma GifsSpacedByCooldown(last: map<int, int>, botId: int, m: Message, now: int)
    requires TateStep(last, botId, m, now).0 == Some(TateGif)
    ensures m.authorId in last ==> now - last[m.authorId] >= TateCooldownSeconds
  {
  }

  /** The handler, over the module-level `last_tate_triggered` map. */
  class TateResponder {
    var lastTateTriggered: map<int, int>
    const botUserId: int

    constructor(botUserId: int)
      ensures lastTateTriggered == map[] && this.botUserId == botUserId
    {
      this.botUserId := botUserId;
      lastTateTriggered := map[];
    }

    /** `on_message` */
    method OnMessage(m: Message, now: int) returns (sent: Option<string>)
      modifies this
      ensures (sent, lastTateTriggered) == TateStep(old(lastTateTriggered), botUserId, m, now)
    {
      if m.authorId == botUserId {
        return None;
      }
      if !MentionsTate(m.content) {
        return None;
      }
      if m.authorId in lastTateTriggered {
        var lastTime := lastTateTriggered[m.authorId];
        if now - lastTime < TateCooldownSeconds {
          return Some(CooldownMessage);
        }
      }
      sent := Some(TateGif);
      lastTateTriggered := lastTateTriggered[m.authorId := now];
    }
  }

  // ---------------------------------------------------------------- /languages

  /** The list line of one language: its name and code, each in backticks. */
  function LanguageLine(code: string, name: string): string {
    "\U{2022} `" + name + "`/`" + code + "`"
  }

  function LanguageLines(languages: seq<(string, string)>): seq<string> {
    seq(|languages|, i requires 0 <= i < |languages| => LanguageLine(languages[i].0, languages[i].1))
  }

  function Concat(parts: seq<string>): string {
    if parts == [] then [] else parts[0] + Concat(parts[1..])
  }

  const ChunkSize := 1990

  /** `[message[i:i + size] for i in range(0, len(message), size)]` */
  function Chunks(message: string, size: nat): (r: seq<string>)
    requires size > 0
    ensures forall k :: 0 <= k < |r| ==> 0 < |r[k]| <= size
    ensures forall k :: 0 <= k < |r| - 1 ==> |r[k]| == size
    ensures r == [] <==> message == []
    decreases |message|
  {
    if message == [] then []
    else if |message| <= size then [message]
    else [message[..size]] + Chunks(message[size..], size)
  }

  /** Joining the chunks gives the message back. */
  lemma {:induction false} ChunksConcat(message: string, size: nat)
    requires size > 0
    ensures Concat(Chunks(message, size)) == message
    decreases |message|
  {
    if message != [] && |message| > size {
      ChunksConcat(message[size..], size);
      var r := Chunks(message, size);
      assert r[1..] == Chunks(message[size..], size);
      assert message == message[..size] + message[size..];
    } else if message != [] {
      assert Concat([message]) == message + Concat([]);
    }
  }

  /** `languages`: the first chunk answers the interaction, every further chunk is a
      follow-up, in order. */
  method SendLanguages(languages: seq<(string, string)>) returns (response: Option<string>, followups: seq<string>)
    ensures var chunks := Chunks(Join(LanguageLines(languages), "\n"), ChunkSize);
      && (chunks == [] ==> response.None? && followups == [])
      && (chunks != [] ==> response == Some(chunks[0]) && followups == chunks[1..])
    ensures response.Some? ==> Concat([response.value] + followups) == Join(LanguageLines(languages), "\n")
  {
    var message := Join(LanguageLines(languages), "\n");
    var chunks := Chunks(message, ChunkSize);
    response := None;
    followups := [];
    var i := 0;
    while i < |chunks|
      invariant 0 <= i <= |chunks|
      invariant i == 0 ==> response.None? && followups == []
      invariant i > 0 ==> response == Some(chunks[0]) && followups == chunks[1..i]
    {
      if i == 0 {
        response := Some(chunks[i]);
      } else {
        followups := followups + [chunks[i]];
      }
      i := i + 1;
    }
    ChunksConcat(message, ChunkSize);
    if response.Some? {
      assert [response.value] + followups == chunks;
    }
  }

  // ---------------------------------------------------------------- /exchangerate arguments

  predicate NotCapital(c: char) { !IsUpperLetter(c) }
  predicate NotLetter(c: char) { !IsLetter(c) }

  /** A currency argument: upper-cased, everything outside A-Z removed, cut to three letters.
      It keeps the first three letters of the argument, in order, upper-cased: "us dollar"
      asks for "USD". */
  function SanitizeCurrency(currency: string): (r: string)
    ensures |r| <= 3
    ensures forall i :: 0 <= i < |r| ==> IsUpperLetter(r[i])
    ensures r == SliceTo(Upper(Keep(currency, NotLetter)), 3)
  {
    KeepCapitalsOfUpper(currency);
    SliceTo(Keep(Upper(currency), NotCapital), 3)
  }

  /** Upper-casing and then keeping the capitals keeps exactly the letters, upper-cased. */
  lemma {:induction false} KeepCapitalsOfUpper(s: string)
    ensures Keep(Upper(s), NotCapital) == Upper(Keep(s, NotLetter))
    decreases |s|
  {
    if s != [] {
      var head, rest := [s[0]], s[1..];
      assert s == head + rest;
      KeepCapitalsOfUpper(rest);
      UpperAppend(head, rest);
      KeepAppend(Upper(head), Upper(rest), NotCapital);
      KeepAppend(head, rest, NotLetter);
      UpperAppend(Keep(head, NotLetter), Keep(rest, NotLetter));
      KeepCapitalsOfUpperChar(s[0]);
    }
  }

  lemma KeepCapitalsOfUpperChar(c: char)
    ensures Keep(Upper([c]), NotCapital) == Upper(Keep([c], NotLetter))
  {
    assert Upper([c]) == [UpperChar(c)];
    assert [c][1..] == [] && [UpperChar(c)][1..] == [];
    if IsLetter(c) {
      assert Keep([c], NotLetter) == [c];
    } else {
      assert Keep([c], NotLetter) == [];
    }
  }

  /** Cleaning a clean argument changes nothing. */
  lemma SanitizeCurrencyIdempotent(currency: string)
    ensures SanitizeCurrency(SanitizeCurrency(currency)) == SanitizeCurrency(currency)
  {
    var r := SanitizeCurrency(currency);
    assert Upper(r) == r;
    assert Keep(r, NotCapital) == r;
  }

  /** A code already written in three capitals passes unchanged. */
  lemma SanitizeCurrencyKeepsCode(currency: string)
    requires |currency| == 3 && forall i :: 0 <= i < 3 ==> IsUpperLetter(currency[i])
    ensures SanitizeCurrency(currency) == currency
  {
    assert Upper(currency) == currency;
  }

  /** A code typed in lower case is upper-cased: "usd" asks for "USD". */
  lemma SanitizeCurrencyUpperCases(currency: string)
    requires |currency| == 3 && forall i :: 0 <= i < 3 ==> IsLowerLetter(currency[i])
    ensures SanitizeCurrency(currency) == Upper(currency)
  {
  }

  // ---------------------------------------------------------------- /weather and /time arguments

  /** `[-\w\s]`: the characters a location keeps. */
  predicate IsLocationChar(c: char) {
    c == '-' || IsWordChar(c) || IsSpace(c)
  }

  /** A location argument: characters outside `[-\w\s]` removed, then each space written
      as "%20". */
  function SanitizeLocation(location: string): string {
    Replace(Keep(location, c => !IsLocationChar(c)), " ", "%20")
  }

  /** Writing spaces as "%20" leaves no space, and empties nothing that was not empty. */
  lemma {:induction false} EncodeSpaces(s: string)
    ensures forall i :: 0 <= i < |Replace(s, " ", "%20")| ==> Replace(s, " ", "%20")[i] != ' '
    ensures Replace(s, " ", "%20") == [] <==> s == []
    ensures |Replace(s, " ", "%20")| >= |s|
    decreases |s|
  {
    if s != [] {
      EncodeSpaces(s[1..]);
    }
  }

  /** Round trip: reading "%20" back as a space recovers the text, as long as it held no '%'. */
  lemma {:induction false} EncodeSpacesRoundTrip(s: string)
    requires forall i :: 0 <= i < |s| ==> s[i] != '%'
    ensures Replace(Replace(s, " ", "%20"), "%20", " ") == s
    decreases |s|
  {
    if s != [] {
      var x := Replace(s[1..], " ", "%20");
      EncodeSpacesRoundTrip(s[1..]);
      if s[0] == ' ' {
        assert Replace(s, " ", "%20") == "%20" + x;
        assert ("%20" + x)[..3] == "%20";
        assert ("%20" + x)[3..] == x;
      } else {
        assert Replace(s, " ", "%20") == [s[0]] + x;
        var y := [s[0]] + x;
        if |y| >= 3 {
          assert y[..3] != "%20" by { assert y[..3][0] == s[0]; }
          assert y[1..] == x;
        } else {
          assert Replace(x, "%20", " ") == x;
        }
      }
    }
  }

  /** A sanitised location holds only `[-\w\s]` characters and "%20" escapes, never '%'
      otherwise, and decodes back to the kept characters. */
  lemma SanitizeLocationDecodes(location: string)
    ensures Replace(SanitizeLocation(location), "%20", " ") == Keep(location, c => !IsLocationChar(c))
    ensures forall i :: 0 <= i < |SanitizeLocation(location)| ==> SanitizeLocation(location)[i] != ' '
  {
    var kept := Keep(location, c => !IsLocationChar(c));
    assert forall i :: 0 <= i < |kept| ==> kept[i] != '%' by {
      forall i | 0 <= i < |kept| ensures kept[i] != '%' {
        assert IsLocationChar(kept[i]);
      }
    }
    EncodeSpacesRoundTrip(kept);
    EncodeSpaces(kept);
  }

  /** What `/weather` or `/time` does with its argument: refuse it, or query the service. */
  datatype LocationQuery = Refused(message: string) | Query(location: string)

  const WeatherRefusal :=
    "\U{1F965} Something's cracked, and it's **not** the coconut! That doesn't look like a valid location. Try again!"
  const TimeRefusal := "\U{1F965} Something's cracked, and it's **not** the coconut! Please enter a valid location."

  /** The location handling shared by `/weather` and `/time`: only a location with no
      character left after cleaning is refused, and then no service is queried. */
  function LocationCommand(location: string, refusal: string): (r: LocationQuery)
    ensures r.Refused? <==> forall i :: 0 <= i < |location| ==> !IsLocationChar(location[i])
    ensures r.Refused? ==> r.message == refusal
    ensures r.Query? ==> r.location == SanitizeLocation(location) && r.location != []
  {
    var kept := Keep(location, c => !IsLocationChar(c));
    EncodeSpaces(kept);
    assert kept == [] ==> forall i :: 0 <= i < |location| ==> !IsLocationChar(location[i]);
    assert kept != [] ==> exists i :: 0 <= i < |location| && IsLocationChar(location[i]) by {
      if kept != [] {
        assert IsLocationChar(kept[0]) && kept[0] in location;
      }
    }
    var cleaned := Replace(kept, " ", "%20");
    if cleaned == [] then Refused(refusal) else Query(cleaned)
  }

  /** The default location "Bangkok" passes unchanged. */
  lemma DefaultLocationUnchanged(location: string)
    requires location == "Bangkok"
    ensures LocationCommand(location, WeatherRefusal) == Query("Bangkok")
  {
    assert forall i :: 0 <= i < |location| ==> IsLocationChar(location[i]);
    assert Keep(location, c => !IsLocationChar(c)) == location;
    ReplaceAbsent(location, " ", "%20");
  }
}
