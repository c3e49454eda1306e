/** The two encodings of protocol messages: text for the network, a packed 64-bit value for the simulation. */
module CommitCodecs {
  import opened Optional
  import opened TwoPhaseCommit

  // ----- packed values -----

  const TAG_RANGE := 0x100
  const WORD_RANGE := 0x1_0000_0000_0000_0000
  const PAYLOAD_RANGE := 0x100_0000_0000_0000

  /** A shift by eight bits in 64-bit arithmetic, and a tag in the low byte. */
  function MakeValue(tag: nat, payload: nat): nat
    requires tag < TAG_RANGE
  {
    payload * TAG_RANGE % WORD_RANGE + tag
  }

  function TagOf(value: nat): nat
  {
    value % TAG_RANGE
  }

  function PayloadOf(value: nat): nat
  {
    value / TAG_RANGE
  }

  function Encode(m: Message): nat
  {
    match m
    case Prepare => MakeValue(1, 0)
    case VoteMsg(from, Yes) => MakeValue(2, from)
    case VoteMsg(from, No) => MakeValue(3, from)
    case DecisionMsg(Commit) => MakeValue(4, 0)
    case DecisionMsg(Abort) => MakeValue(5, 0)
    case Ack(from) => MakeValue(6, from)
  }

  function Decode(value: nat): Option<Message>
  {
    match TagOf(value)
    case 1 => Some(Prepare)
    case 2 => Some(VoteMsg(PayloadOf(value), Yes))
    case 3 => Some(VoteMsg(PayloadOf(value), No))
    case 4 => Some(DecisionMsg(Commit))
    case 5 => Some(DecisionMsg(Abort))
    case 6 => Some(Ack(PayloadOf(value)))
    case _ => None
  }

  lemma Packed(tag: nat, payload: nat)
    requires tag < TAG_RANGE
    ensures TagOf(MakeValue(tag, payload)) == tag && PayloadOf(MakeValue(tag, payload)) == payload % PAYLOAD_RANGE
  {
    var q, r := payload / PAYLOAD_RANGE, payload % PAYLOAD_RANGE;
    assert payload * TAG_RANGE == q * WORD_RANGE + r * TAG_RANGE;
    Remainder(payload * TAG_RANGE, q, r * TAG_RANGE);
    assert MakeValue(tag, payload) == r * TAG_RANGE + tag;
  }

  lemma Remainder(x: nat, q: nat, y: nat)
    requires x == q * WORD_RANGE + y && y < WORD_RANGE
    ensures x % WORD_RANGE == y
  {
  }

  function IdOf(m: Message): nat
  {
    match m
    case VoteMsg(from, _) => from
    case Ack(from) => from
    case _ => 0
  }

  /** Packing loses nothing exactly for participant ids below 2^56. */
  lemma PackedRoundTrip(m: Message)
    ensures Decode(Encode(m)) == Some(m) <==> IdOf(m) < PAYLOAD_RANGE
  {
    match m
    case Prepare => Packed(1, 0);
    case VoteMsg(from, Yes) => Packed(2, from);
    case VoteMsg(from, No) => Packed(3, from);
    case DecisionMsg(Commit) => Packed(4, 0);
    case DecisionMsg(Abort) => Packed(5, 0);
    case Ack(from) => Packed(6, from);
  }

  // ----- text -----

  predicate IsDigit(c: char)
  {
    '0' <= c <= '9'
  }

  function DigitChar(d: nat): (c: char)
    requires d < 10
    ensures IsDigit(c) && DigitValue(c) == d
  {
    ('0' as int + d) as char
  }

  function DigitValue(c: char): nat
    requires IsDigit(c)
  {
    c as int - '0' as int
  }

  function Decimal(n: nat): string
  {
    if n < 10 then [DigitChar(n)] else Decimal(n / 10) + [DigitChar(n % 10)]
  }

  function Serialize(m: Message): string
  {
    match m
    case Prepare => "PREPARE"
    case VoteMsg(from, vote) => "VOTE" + " " + (Decimal(from) + (" " + if vote.Yes? then "YES" else "NO"))
    case DecisionMsg(decision) => "DECISION" + " " + if decision.Commit? then "COMMIT" else "ABORT"
    case Ack(from) => "ACK" + " " + Decimal(from)
  }

  function SkipSpaces(s: string): string
  {
    if s == "" || s[0] != ' ' then s else SkipSpaces(s[1..])
  }

  function TakeWord(s: string): string
  {
    if s == "" || s[0] == ' ' then "" else [s[0]] + TakeWord(s[1..])
  }

  lemma {:induction false} WordIsPrefix(s: string)
    ensures TakeWord(s) <= s
    decreases |s|
  {
    if s != "" && s[0] != ' ' {
      WordIsPrefix(s[1..]);
    }
  }

  /** The next word of the stream and what follows it. */
  function NextWord(s: string): (string, string)
  {
    var t := SkipSpaces(s);
    WordIsPrefix(t);
    (TakeWord(t), t[|TakeWord(t)|..])
  }

  function ReadDigits(value: nat, s: string): (nat, string)
    decreases |s|
  {
    if s == "" || !IsDigit(s[0]) then (value, s) else ReadDigits(value * 10 + DigitValue(s[0]), s[1..])
  }

  /** The next number of the stream; a missing or oversized one fails. */
  function NextNumber(s: string): Option<(nat, string)>
  {
    var t := SkipSpaces(s);
    if t == "" || !IsDigit(t[0]) || ReadDigits(0, t).0 >= WORD_RANGE then None else Some(ReadDigits(0, t))
  }

  function ReadVote(s: string): Option<Message>
  {
    var number := NextNumber(s);
    if number.None? then None
    else
      match NextWord(number.value.1).0
      case "YES" => Some(VoteMsg(number.value.0, Yes))
      case "NO" => Some(VoteMsg(number.value.0, No))
      case _ => None
  }

  function Deserialize(s: string): Option<Message>
  {
    var (tag, rest) := NextWord(s);
    if tag == "PREPARE" then Some(Prepare)
    else if tag == "VOTE" then ReadVote(rest)
    else if tag == "DECISION" then
      var (word, _) := NextWord(rest);
      if word == "COMMIT" then Some(DecisionMsg(Commit)) else if word == "ABORT" then Some(DecisionMsg(Abort)) else None
    else if tag == "ACK" then
      var number := NextNumber(rest);
      if number.None? then None else Some(Ack(number.value.0))
    else None
  }

  predicate Solid(w: string)
  {
    forall i :: 0 <= i < |w| ==> w[i] != ' '
  }

  lemma {:induction false} TakesSolid(w: string, rest: string)
    requires Solid(w) && (rest == "" || rest[0] == ' ')
    ensures TakeWord(w + rest) == w
    decreases |w|
  {
    if w == "" {
      assert w + rest == rest;
    } else {
      assert (w + rest)[1..] == w[1..] + rest;
      TakesSolid(w[1..], rest);
      assert [w[0]] + w[1..] == w;
    }
  }

  /** Reading a word that is followed by a space or by nothing. */
  lemma ReadsWord(w: string, rest: string)
    requires Solid(w) && w != "" && (rest == "" || rest[0] == ' ')
    ensures NextWord(w + rest) == (w, rest) && NextWord(" " + (w + rest)) == (w, rest)
  {
    TakesSolid(w, rest);
    assert (w + rest)[0] != ' ' && (w + rest)[|w|..] == rest;
    assert (" " + (w + rest))[1..] == w + rest;
    assert SkipSpaces(w + rest) == w + rest;
    assert SkipSpaces(" " + (w + rest)) == w + rest;
  }

  ghost predicate Digits(w: string)
  {
    forall i :: 0 <= i < |w| ==> IsDigit(w[i])
  }

  ghost function ValueOf(w: string): nat
    requires Digits(w)
  {
    if w == "" then 0 else ValueOf(w[..|w| - 1]) * 10 + DigitValue(w[|w| - 1])
  }

  lemma {:induction false} DecimalIsNumber(n: nat)
    ensures Decimal(n) != "" && Digits(Decimal(n)) && ValueOf(Decimal(n)) == n
  {
    var w := Decimal(n);
    if n >= 10 {
      DecimalIsNumber(n / 10);
      assert w[..|w| - 1] == Decimal(n / 10);
    } else {
      assert w[..0] == "";
    }
  }

  lemma {:induction false} ReadsDigits(done: string, w: string, rest: string)
    requires Digits(done + w) && Digits(done) && (rest == "" || !IsDigit(rest[0]))
    ensures ReadDigits(ValueOf(done), w + rest) == (ValueOf(done + w), rest)
    decreases |w|
  {
    if w == "" {
      assert w + rest == rest && done + w == done;
    } else {
      var more := done + [w[0]];
      assert more[..|done|] == done && more + w[1..] == done + w && (w + rest)[1..] == w[1..] + rest;
      assert IsDigit((done + w)[|done|]);
      ReadsDigits(more, w[1..], rest);
    }
  }

  lemma ReadsNumber(n: nat, rest: string)
    requires n < WORD_RANGE && (rest == "" || !IsDigit(rest[0]))
    ensures NextNumber(" " + (Decimal(n) + rest)) == Some((n, rest))
  {
    DecimalIsNumber(n);
    var w := Decimal(n);
    assert "" + w == w;
    ReadsDigits("", w, rest);
    assert (w + rest)[0] == w[0];
    assert (" " + (w + rest))[1..] == w + rest;
    assert SkipSpaces(w + rest) == w + rest;
  }

  lemma VoteText(from: nat, vote: Vote)
    requires from < WORD_RANGE
    ensures Deserialize(Serialize(VoteMsg(from, vote))) == Some(VoteMsg(from, vote))
  {
    hide NextWord, NextNumber, Decimal;
    var word := if vote.Yes? then "YES" else "NO";
    var tail := " " + (Decimal(from) + (" " + word));
    assert Serialize(VoteMsg(from, vote)) == "VOTE" + tail;
    ReadsWord("VOTE", tail);
    assert ReadVote(tail) == Some(VoteMsg(from, vote)) by {
      ReadsNumber(from, " " + word);
      ReadsWord(word, "");
      assert word + "" == word;
    }
  }

  lemma DecisionText(decision: Decision)
    ensures Deserialize(Serialize(DecisionMsg(decision))) == Some(DecisionMsg(decision))
  {
    hide NextWord;
    var word := if decision.Commit? then "COMMIT" else "ABORT";
    assert Serialize(DecisionMsg(decision)) == "DECISION" + (" " + word);
    ReadsWord("DECISION", " " + word);
    assert word + "" == word;
    ReadsWord(word, "");
  }

  lemma AckText(from: nat)
    requires from < WORD_RANGE
    ensures Deserialize(Serialize(Ack(from))) == Some(Ack(from))
  {
    hide NextWord, NextNumber, Decimal;
    var tail := " " + (Decimal(from) + "");
    assert Decimal(from) + "" == Decimal(from);
    assert Serialize(Ack(from)) == "ACK" + tail;
    ReadsWord("ACK", tail);
    ReadsNumber(from, "");
  }

  /** Reading back what was written gives the message. */
  lemma TextRoundTrip(m: Message)
    requires IdOf(m) < WORD_RANGE
    ensures Deserialize(Serialize(m)) == Some(m)
  {
    hide NextWord, Deserialize, Serialize;
    match m
    case Prepare => PrepareText();
    case VoteMsg(from, vote) => VoteText(from, vote);
    case DecisionMsg(decision) => DecisionText(decision);
    case Ack(from) => AckText(from);
  }

  lemma PrepareText()
    ensures Deserialize(Serialize(Prepare)) == Some(Prepare)
  {
    hide NextWord;
    assert "PREPARE" + "" == "PREPARE";
    ReadsWord("PREPARE", "");
  }
}
