/** The `/pollution` command: the branching on the air-quality service's reply and the
    classification of the AQI into six bands, each with its emoji and message. The HTTP call
    and the human-readable age of the reading are inputs. */
module Pollution {
  import opened Strings

  /** The bot's shared error prefix, exactly as its configuration spells it (a coconut emoji
      whose UTF-8 bytes were decoded as Latin-1/CP1252). */
  const ErrorMessage := MangledCoconut + " Oops, something's cracked, and it's **not** the coconut!"

  /** The four characters the mis-decoded coconut emoji became. */
  const MangledCoconut := "\U{F0}\U{178}\U{A5}\U{A5}"

  datatype Band = Good | Moderate | Sensitive | Unhealthy | VeryUnhealthy | Hazardous

  /** The position of a band from cleanest (0) to worst (5). */
  function Rank(b: Band): nat {
    match b
    case Good => 0
    case Moderate => 1
    case Sensitive => 2
    case Unhealthy => 3
    case VeryUnhealthy => 4
    case Hazardous => 5
  }

  /** The upper bounds (inclusive) of the first five bands. */
  const Thresholds: seq<int> := [50, 100, 150, 200, 300]

  /** The band of an AQI value: the first band whose upper bound is not below it. */
  function BandOf(aqi: int): Band {
    if aqi <= 50 then Good
    else if aqi <= 100 then Moderate
    else if aqi <= 150 then Sensitive
    else if aqi <= 200 then Unhealthy
    else if aqi <= 300 then VeryUnhealthy
    else Hazardous
  }

  /** How many of `bounds` lie strictly below `aqi`. */
  function CountBelow(bounds: seq<int>, aqi: int): (r: nat)
    ensures r <= |bounds|
  {
    if bounds == [] then 0 else (if bounds[0] < aqi then 1 else 0) + CountBelow(bounds[1..], aqi)
  }

  /** The band's rank is the number of thresholds the value exceeds: an independent
      description of the if/elif chain. */
  lemma BandRankCountsThresholds(aqi: int)
    ensures Rank(BandOf(aqi)) == CountBelow(Thresholds, aqi)
  {
    assert CountBelow([], aqi) == 0;
    assert CountBelow([300], aqi) == (if 300 < aqi then 1 else 0) by { assert [300][1..] == []; }
    assert CountBelow([200, 300], aqi) == (if 200 < aqi then 1 else 0) + CountBelow([300], aqi)
      by { assert [200, 300][1..] == [300]; }
    assert CountBelow([150, 200, 300], aqi) == (if 150 < aqi then 1 else 0) + CountBelow([200, 300], aqi)
      by { assert [150, 200, 300][1..] == [200, 300]; }
    assert CountBelow([100, 150, 200, 300], aqi) == (if 100 < aqi then 1 else 0) + CountBelow([150, 200, 300], aqi)
      by { assert [100, 150, 200, 300][1..] == [150, 200, 300]; }
    assert CountBelow(Thresholds, aqi) == (if 50 < aqi then 1 else 0) + CountBelow([100, 150, 200, 300], aqi)
      by { assert Thresholds[1..] == [100, 150, 200, 300]; }
  }

  /** A worse reading never gets a cleaner band. */
  lemma BandMonotone(a: int, b: int)
    requires a <= b
    ensures Rank(BandOf(a)) <= Rank(BandOf(b))
  {
  }

  /** The bounds belong to the lower band: 50 is still good, 51 is moderate, and so on. */
  lemma BandBoundariesInclusive()
    ensures BandOf(50) == Good && BandOf(51) == Moderate
    ensures BandOf(100) == Moderate && BandOf(101) == Sensitive
    ensures BandOf(150) == Sensitive && BandOf(151) == Unhealthy
    ensures BandOf(200) == Unhealthy && BandOf(201) == VeryUnhealthy
    ensures BandOf(300) == VeryUnhealthy && BandOf(301) == Hazardous
  {
  }

  function Emoji(b: Band): string {
    match b
    case Good => "\U{1F7E2}"
    case Moderate => "\U{1F7E1}"
    case Sensitive => "\U{1F7E0}"
    case Unhealthy => "\U{1F534}"
    case VeryUnhealthy => "\U{1F7E3}"
    case Hazardous => "\U{26AB}\U{FE0F}"
  }

  /** The band's emoji can be told from its first character. */
  function BandOfEmojiStart(c: char): (r: Option<Band>)
    ensures forall b :: c == Emoji(b)[0] ==> r == Some(b)
  {
    if c == '\U{1F7E2}' then Some(Good)
    else if c == '\U{1F7E1}' then Some(Moderate)
    else if c == '\U{1F7E0}' then Some(Sensitive)
    else if c == '\U{1F534}' then Some(Unhealthy)
    else if c == '\U{1F7E3}' then Some(VeryUnhealthy)
    else if c == '\U{26AB}' then Some(Hazardous)
    else None
  }

  const GoodMessageStart := "The air is so clean, it\U{2019}s like a "
  const GoodMessageEnd := " fresh off the tree. August Engelhardt would be proud (and probably try to worship it, too)."

  function Message(b: Band): string {
    match b
    case Good => GoodMessageStart + VacuumSealed + GoodMessageEnd
    case Moderate => "Decent air. Like a coconut: refreshing, but not life-changing."
    case Sensitive => "Not great, not terrible. Stay in, unless you fancy a diet of delusions. Wear a mask."
    case Unhealthy =>
      "Unhealthy. Breathing's like Engelhardt's coconut-only dreams. Wear a mask - and, no, it's not \"infringing on your freedom.\""
    case VeryUnhealthy =>
      "Very unhealthy. The air is a cult\U{2014}suffocating your sanity, one breath at a time. A mask is no longer optional."
    case Hazardous =>
      "Apocalypse air! Even Engelhardt's coconuts couldn't save this. Mask up, or you'll be seeing coconuts soon."
  }

  /** What the service answered: whether the HTTP status was OK, and the decoded body. The
      age text is what the humanising library made of the reading's timestamp. */
  datatype Reading = Reading(aqi: int, cityName: string, updatedAgo: string)
  datatype Reply = Reply(ok: bool, status: string, data: Reading)

  const ConnectionErrorTail := " Looks like there's been some connection error. Give it another shot."

  function SpellingError(city: string): string {
    ErrorMessage + " Check your spelling of \"" + city + "\" and give it another shot."
  }

  function PreOutput(r: Reading): string {
    "The PM2.5 level in **" + r.cityName + "** is at `" + IntToString(r.aqi) + "` **AQI**."
  }

  /** The text `pollution_command` sends for a reply to the query for `city`. */
  function PollutionResponse(city: string, reply: Reply): (msg: string)
    ensures !reply.ok ==> msg == ErrorMessage + ConnectionErrorTail
    ensures reply.ok && reply.status != "ok" ==> msg == SpellingError(city)
    ensures reply.ok && reply.status == "ok" ==>
      |msg| > |Emoji(BandOf(reply.data.aqi))| &&
      msg[..|Emoji(BandOf(reply.data.aqi))|] == Emoji(BandOf(reply.data.aqi))
    ensures reply.ok && reply.status == "ok" ==>
      && Contains(msg, PreOutput(reply.data))
      && Contains(msg, Message(BandOf(reply.data.aqi)))
      && Contains(msg, reply.data.updatedAgo)
  {
    if !reply.ok then ErrorMessage + ConnectionErrorTail
    else if reply.status != "ok" then SpellingError(city)
    else
      var b := BandOf(reply.data.aqi);
      AnswerCarriesParts(Emoji(b), PreOutput(reply.data), Message(b), reply.data.updatedAgo);
      Answer(Emoji(b), PreOutput(reply.data), Message(b), reply.data.updatedAgo)
  }

  /** The answer to a successful reply: the band's emoji, the AQI sentence, the band's message
      and the age of the reading. */
  function Answer(emoji: string, pre: string, message: string, ago: string): (r: string)
    ensures |r| > |emoji| && r[..|emoji|] == emoji
  {
    var rest := " " + pre + " " + message + " (Last checked: " + ago + ")";
    assert (emoji + rest)[..|emoji|] == emoji;
    emoji + rest
  }

  /** The answer holds each of its parts whole. */
  lemma AnswerCarriesParts(emoji: string, pre: string, message: string, ago: string)
    ensures var r := Answer(emoji, pre, message, ago);
      Contains(r, pre) && Contains(r, message) && Contains(r, ago)
  {
    var r := Answer(emoji, pre, message, ago);
    var e := emoji + " ";
    var tail := " (Last checked: " + ago + ")";
    assert r == e + pre + (" " + message + tail);
    ContainsMiddle(e, pre, " " + message + tail);
    assert r == (e + pre + " ") + message + tail;
    ContainsMiddle(e + pre + " ", message, tail);
    assert r == (e + pre + " " + message + " (Last checked: ") + ago + ")";
    ContainsMiddle(e + pre + " " + message + " (Last checked: ", ago, ")");
  }

  /** The first character of the reply tells the cases apart: an error starts with the error
      prefix, which is no band's emoji; an answer starts with the emoji of its band. */
  lemma ResponseStartIdentifiesBand(city: string, reply: Reply)
    ensures var msg := PollutionResponse(city, reply);
      && |msg| > 0
      && (!(reply.ok && reply.status == "ok") ==> BandOfEmojiStart(msg[0]).None?)
      && (reply.ok && reply.status == "ok" ==> BandOfEmojiStart(msg[0]) == Some(BandOf(reply.data.aqi)))
  {
    var msg := PollutionResponse(city, reply);
    if reply.ok && reply.status == "ok" {
      var e := Emoji(BandOf(reply.data.aqi));
      assert msg[0] == msg[..|e|][0] == e[0];
    } else {
      assert ErrorMessage[0] == '\U{F0}';
      assert msg[0] == ErrorMessage[0];
    }
  }

  lemma ContainsMiddle(a: string, t: string, b: string)
    ensures Contains(a + t + b, t)
  {
    assert OccursAt(a + t + b, |a|, t);
  }

  /** The phrase the tests look for in a good reading's answer. */
  const VacuumSealed := "vacuum sealed coconut"

  /** A reading of 42 is answered with the green emoji and the vacuum-sealed-coconut message. */
  lemma GoodReadingExample(city: string, reply: Reply)
    requires reply.ok && reply.status == "ok" && reply.data.aqi == 42
    ensures var msg := PollutionResponse(city, reply);
      && BandOfEmojiStart(msg[0]) == Some(Good)
      && Contains(msg, VacuumSealed)
  {
    ResponseStartIdentifiesBand(city, reply);
    var msg := PollutionResponse(city, reply);
    assert BandOf(42) == Good;
    ContainsMiddle(GoodMessageStart, VacuumSealed, GoodMessageEnd);
    ContainsWithin(msg, Message(Good), VacuumSealed);
  }
}
