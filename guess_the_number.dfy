/**
 * The console number-guessing game: a magic number is drawn, the player types
 * words until one is "Quit" or a correct guess, and every turn's status is
 * rendered as a message.  Console I/O is replaced by a finite sequence of
 * typed words and by returned messages; the random draw is a parameter.
 */
module GuessTheNumber {
  import opened Wrappers

  /** The game status: `None` before the first turn, otherwise a string. */
  type Status = Option<string>

  /** The four statuses `render` knows. */
  predicate IsKnownStatus(s: Status) {
    s == Some("win") || s == Some("end") || s == Some("lower") || s == Some("higher")
  }

  /** `init`: no status yet, and the magic number `draw` that `randint(1, 10)` returned. */
  function Init(draw: int): (r: (Status, int))
    requires 1 <= draw <= 10
    ensures r.0 == None && !IsKnownStatus(r.0)
    ensures 1 <= r.1 <= 10 && r.1 == draw
  {
    (None, draw)
  }

  // ---------------------------------------------------------------------------
  // Decimal integers (a simplified `int(word)`)
  // ---------------------------------------------------------------------------

  predicate IsDigit(c: char) { '0' <= c <= '9' }

  predicate AllDigits(s: string) { forall i :: 0 <= i < |s| ==> IsDigit(s[i]) }

  function DigitValue(c: char): nat
    requires IsDigit(c)
  {
    (c as int) - ('0' as int)
  }

  /** The value of a string of decimal digits, most significant first. */
  function DigitsValue(s: string): nat
    requires AllDigits(s)
  {
    if |s| == 0 then 0 else 10 * DigitsValue(s[..|s| - 1]) + DigitValue(s[|s| - 1])
  }

  /** An optional sign followed by one or more decimal digits; anything else fails,
      as `int(word)` raises `ValueError`. */
  function ParseInt(word: string): Option<int> {
    if |word| > 0 && (word[0] == '-' || word[0] == '+') then
      var digits := word[1..];
      if |digits| > 0 && AllDigits(digits) then
        var v: int := DigitsValue(digits);
        Some(if word[0] == '-' then -v else v)
      else
        None
    else if |word| > 0 && AllDigits(word) then
      Some(DigitsValue(word))
    else
      None
  }

  /** The words the parser accepts, described character by character: a digit
      or a sign first, digits after it, and at least one digit in all. */
  predicate IntegerWord(word: string) {
    && |word| > 0
    && (IsDigit(word[0]) || ((word[0] == '-' || word[0] == '+') && |word| >= 2))
    && forall i :: 0 < i < |word| ==> IsDigit(word[i])
  }

  /** The parser succeeds exactly on integer words. */
  lemma ParseIntAccepts(word: string)
    ensures ParseInt(word).Some? <==> IntegerWord(word)
  {
    if |word| > 0 && !(word[0] == '-' || word[0] == '+') {
      if IntegerWord(word) {
        assert AllDigits(word);
      }
    } else if |word| > 0 {
      var digits := word[1..];
      if IntegerWord(word) {
        assert forall i :: 0 <= i < |digits| ==> digits[i] == word[i + 1];
      }
    }
  }

  /** A number with decimals, such as "2.5", is not accepted. */
  lemma DecimalsAreRejected(word: string, i: nat)
    requires i < |word| && word[i] == '.'
    ensures ParseInt(word) == None
  {
    ParseIntAccepts(word);
  }

  function Digit(d: nat): char
    requires d < 10
  {
    ('0' as int + d) as char
  }

  /** The usual decimal spelling of a natural number (no leading zeros). */
  function NatToString(n: nat): string {
    if n < 10 then [Digit(n)] else NatToString(n / 10) + [Digit(n % 10)]
  }

  /** The spelling a player would type for the integer `n`. */
  function IntToString(n: int): string {
    if n < 0 then "-" + NatToString(-n) else NatToString(n)
  }

  lemma {:induction false} NatToStringDigits(n: nat)
    ensures |NatToString(n)| > 0 && AllDigits(NatToString(n))
    ensures DigitsValue(NatToString(n)) == n
  {
    if n >= 10 {
      NatToStringDigits(n / 10);
      var s := NatToString(n);
      assert s[..|s| - 1] == NatToString(n / 10);
    }
  }

  /** Every integer, typed in its usual spelling, is read back as itself. */
  lemma {:induction false} ParseIntOfIntToString(n: int)
    ensures ParseInt(IntToString(n)) == Some(n)
  {
    if n < 0 {
      var digits := NatToString(-n);
      NatToStringDigits(-n);
      assert IntToString(n) == "-" + digits;
      assert ("-" + digits)[0] == '-' && ("-" + digits)[1..] == digits;
    } else {
      var digits := NatToString(n);
      NatToStringDigits(n);
      assert IntToString(n) == digits;
      assert IsDigit(digits[0]);
    }
  }

  // ---------------------------------------------------------------------------
  // processInput
  // ---------------------------------------------------------------------------

  /** How `processInput` treats one typed word. */
  datatype Read = Quit | Number(n: int) | Skip

  function Classify(word: string): Read {
    if word == "Quit" then Quit
    else match ParseInt(word)
      case Some(n) => Number(n)
      case None => Skip
  }

  /** The quit check is case-sensitive: only the exact word "Quit" quits. */
  lemma QuitIsCaseSensitive(word: string)
    ensures Classify(word) == Quit <==> word == "Quit"
    ensures Classify("quit") == Skip && Classify("QUIT") == Skip
  {
  }

  /** A word other than "Quit" is a guess exactly when it is an integer word,
      and its value is what the parser reads; every other word is skipped. */
  lemma ClassifyCases(word: string)
    ensures Classify(word).Number? <==> word != "Quit" && IntegerWord(word)
    ensures Classify(word) == Skip <==> word != "Quit" && !IntegerWord(word)
    ensures Classify(word).Number? ==> ParseInt(word) == Some(Classify(word).n)
  {
    ParseIntAccepts(word);
  }

  /** The `playerNumber` that `processInput` returns for an accepted word. */
  function PlayerNumber(r: Read): Option<int>
    requires !r.Skip?
  {
    if r.Quit? then None else Some(r.n)
  }

  /** The outcome of one call to `processInput` that reads from `words[start..]`:
      the player number and the position after the accepted word, or the end of
      the input (where `input()` would raise `EOFError`). */
  datatype Prompt = Answer(playerNumber: Option<int>, next: nat) | EndOfInput

  method ProcessInput(words: seq<string>, start: nat) returns (r: Prompt)
    requires start <= |words|
    ensures r.EndOfInput? <==> forall j :: start <= j < |words| ==> Classify(words[j]) == Skip
    ensures r.Answer? ==>
      && start < r.next <= |words|
      && (forall j :: start <= j < r.next - 1 ==> Classify(words[j]) == Skip)
      && Classify(words[r.next - 1]) != Skip
      && r.playerNumber == PlayerNumber(Classify(words[r.next - 1]))
  {
    var i := start;
    while true
      invariant start <= i <= |words|
      invariant forall j :: start <= j < i ==> Classify(words[j]) == Skip
      decreases |words| - i
    {
      if i == |words| {
        return EndOfInput;
      }
      var word := words[i];
      i := i + 1;
      if word == "Quit" {
        return Answer(None, i);
      }
      var playerNumber := ParseInt(word);
      if playerNumber.Some? {
        return Answer(playerNumber, i);
      }
      // not a number: the player is asked again
    }
  }

  // ---------------------------------------------------------------------------
  // update and render
  // ---------------------------------------------------------------------------

  /** `update`: the new status and the (unchanged) magic number.  The final
      fall-through of the Python `elif` chain keeps the old status; the
      contract shows it is never taken. */
  function Update(status: Status, magic: int, player: Option<int>): (r: (Status, int))
    ensures r.1 == magic
    ensures player.None? ==> r.0 == Some("end")
    ensures player.Some? ==> (r.0 == Some("win") <==> player.value == magic)
    ensures player.Some? ==> (r.0 == Some("lower") <==> magic < player.value)
    ensures player.Some? ==> (r.0 == Some("higher") <==> magic > player.value)
    ensures player.Some? ==> r.0 == Some("win") || r.0 == Some("lower") || r.0 == Some("higher")
  {
    if player.None? then (Some("end"), magic)
    else if player.value == magic then (Some("win"), magic)
    else if magic < player.value then (Some("lower"), magic)
    else if magic > player.value then (Some("higher"), magic)
    else (status, magic)
  }

  /** The previous status never influences `update`. */
  lemma UpdateIgnoresStatus(s1: Status, s2: Status, magic: int, player: Option<int>)
    ensures Update(s1, magic, player) == Update(s2, magic, player)
    ensures IsKnownStatus(Update(s1, magic, player).0)
  {
  }

  /** Python's `"{}".format(status)`. */
  function StatusText(s: Status): string {
    match s
    case None => "None"
    case Some(t) => t
  }

  /** `render`: the message printed for a status, or the `RuntimeError` raised
      for a status it does not know. */
  function Render(status: Status, magic: int): (r: Result<string, string>)
    ensures r.Ok? <==> IsKnownStatus(status)
    ensures r.Err? ==> r.error == "Unexpected game status " + StatusText(status)
  {
    if status == Some("win") then Ok("This is correct! You win!")
    else if status == Some("end") then Ok("Bye!")
    else if status == Some("lower") then Ok("The magic number is lower")
    else if status == Some("higher") then Ok("The magic number is higher")
    else Err("Unexpected game status " + StatusText(status))
  }

  /** Each known status has its own message. */
  lemma RenderMessagesDistinct(s1: Status, s2: Status, magic: int)
    requires IsKnownStatus(s1) && IsKnownStatus(s2)
    ensures Render(s1, magic) == Render(s2, magic) <==> s1 == s2
  {
  }

  /** Rendering the initial status fails: `runGame` must not render before the first turn. */
  lemma InitialStatusDoesNotRender(draw: int)
    requires 1 <= draw <= 10
    ensures Render(Init(draw).0, draw) == Err("Unexpected game status None")
  {
    assert "Unexpected game status " + StatusText(None) == "Unexpected game status None";
  }

  // ---------------------------------------------------------------------------
  // The game's transition table, independently of update/render
  // ---------------------------------------------------------------------------

  /** What the player is told after an accepted word: quit ends the game, the
      magic number wins, a smaller guess is told to go higher, a larger one lower. */
  function Feedback(r: Read, magic: int): string
    requires !r.Skip?
  {
    match r
    case Quit => "Bye!"
    case Number(n) =>
      if n == magic then "This is correct! You win!"
      else if n < magic then "The magic number is higher"
      else "The magic number is lower"
  }

  /** `update` followed by `render` says exactly what the table says. */
  lemma UpdateThenRenderIsFeedback(status: Status, magic: int, r: Read)
    requires !r.Skip?
    ensures Render(Update(status, magic, PlayerNumber(r)).0, magic) == Ok(Feedback(r, magic))
  {
  }

  /** The messages a player sees for the words `ws`: one per accepted word. */
  function Transcript(ws: seq<string>, magic: int): seq<string> {
    if ws == [] then []
    else
      var r := Classify(ws[0]);
      (if r.Skip? then [] else [Feedback(r, magic)]) + Transcript(ws[1..], magic)
  }

  lemma {:induction false} TranscriptAppend(a: seq<string>, b: seq<string>, magic: int)
    ensures Transcript(a + b, magic) == Transcript(a, magic) + Transcript(b, magic)
  {
    if a == [] {
      assert a + b == b;
    } else {
      assert (a + b)[1..] == a[1..] + b;
      TranscriptAppend(a[1..], b, magic);
    }
  }

  /** Words that are neither "Quit" nor numbers produce no message. */
  lemma {:induction false} TranscriptOfSkipped(ws: seq<string>, magic: int)
    requires forall j :: 0 <= j < |ws| ==> Classify(ws[j]) == Skip
    ensures Transcript(ws, magic) == []
  {
    if ws != [] {
      TranscriptOfSkipped(ws[1..], magic);
    }
  }

  /** A word that ends the game against this magic number. */
  predicate IsStop(word: string, magic: int) {
    Classify(word) == Quit || Classify(word) == Number(magic)
  }

  /** Typing the magic number itself is a winning word, for every draw. */
  lemma TypingTheMagicNumberWins(magic: int)
    requires 1 <= magic <= 10
    ensures IsStop(IntToString(magic), magic)
    ensures Update(None, magic, PlayerNumber(Classify(IntToString(magic)))).0 == Some("win")
  {
    ParseIntOfIntToString(magic);
    assert IntToString(magic) != "Quit";
  }

  // ---------------------------------------------------------------------------
  // runGame
  // ---------------------------------------------------------------------------

  /** The statuses that stop the `runGame` loop. */
  predicate IsOver(status: Status) {
    status == Some("win") || status == Some("end")
  }

  /** After reading `words[..consumed]` the game has stopped at its first stop
      word, the last one read, with the status that word gives. */
  predicate StoppedAt(words: seq<string>, consumed: nat, magic: int, status: Status) {
    && 0 < consumed <= |words|
    && IsStop(words[consumed - 1], magic)
    && (forall j :: 0 <= j < consumed - 1 ==> !IsStop(words[j], magic))
    && status == (if Classify(words[consumed - 1]) == Quit then Some("end") else Some("win"))
  }

  /** After reading `words[..consumed]` no stop word has been seen and the status
      is the initial one or a hint. */
  predicate StillGuessing(words: seq<string>, consumed: nat, magic: int, status: Status) {
    && consumed <= |words|
    && (forall j :: 0 <= j < consumed ==> !IsStop(words[j], magic))
    && (status == None || status == Some("lower") || status == Some("higher"))
  }

  /** One turn of `runGame`: `processInput` skipped `words[before..next - 1]` and
      accepted `words[next - 1]`, and `update` produced `status'`. */
  lemma Turn(words: seq<string>, before: nat, next: nat, magic: int, status: Status, status': Status)
    requires StillGuessing(words, before, magic, status)
    requires before < next <= |words|
    requires forall j :: before <= j < next - 1 ==> Classify(words[j]) == Skip
    requires Classify(words[next - 1]) != Skip
    requires status' == Update(status, magic, PlayerNumber(Classify(words[next - 1]))).0
    ensures IsOver(status') ==> StoppedAt(words, next, magic, status')
    ensures !IsOver(status') ==> StillGuessing(words, next, magic, status')
    ensures Render(status', magic) == Ok(Feedback(Classify(words[next - 1]), magic))
    ensures Transcript(words[..next], magic)
         == Transcript(words[..before], magic) + [Feedback(Classify(words[next - 1]), magic)]
  {
    var word := words[next - 1];
    UpdateThenRenderIsFeedback(status, magic, Classify(word));
    assert words[..next] == words[..before] + words[before..next - 1] + [word];
    TranscriptOfSkipped(words[before..next - 1], magic);
    TranscriptAppend(words[..before], words[before..next - 1], magic);
    TranscriptAppend(words[..before] + words[before..next - 1], [word], magic);
    assert Transcript([word], magic) == [Feedback(Classify(word), magic)];
  }

  /** The input ran out while the game was still on: every word was read and none stops it. */
  lemma RanOut(words: seq<string>, consumed: nat, magic: int, status: Status)
    requires StillGuessing(words, consumed, magic, status)
    requires forall j :: consumed <= j < |words| ==> Classify(words[j]) == Skip
    ensures StillGuessing(words, |words|, magic, status)
    ensures Transcript(words[..|words|], magic) == Transcript(words[..consumed], magic)
  {
    assert words[..|words|] == words[..consumed] + words[consumed..];
    TranscriptOfSkipped(words[consumed..], magic);
    TranscriptAppend(words[..consumed], words[consumed..], magic);
  }

  /** `runGame` with magic number `draw`, reading from `words`.  Returns the final
      status, how many words were read, every status passed to `render` with the
      message it produced, and whether the input ran out first. */
  method RunGame(draw: int, words: seq<string>)
    returns (status: Status, consumed: nat, rendered: seq<Status>, messages: seq<string>, exhausted: bool)
    requires 1 <= draw <= 10
    ensures consumed <= |words|
    ensures |rendered| == |messages|
    ensures forall i :: 0 <= i < |rendered| ==>
      IsKnownStatus(rendered[i]) && Render(rendered[i], draw) == Ok(messages[i])
    ensures messages == Transcript(words[..consumed], draw)
    ensures !exhausted <==> exists i :: 0 <= i < |words| && IsStop(words[i], draw)
    ensures !exhausted <==> IsOver(status)
    ensures !exhausted ==> StoppedAt(words, consumed, draw, status)
    ensures exhausted ==> consumed == |words| && StillGuessing(words, consumed, draw, status)
  {
    var state := Init(draw);
    var magic;
    status, magic := state.0, state.1;
    consumed, rendered, messages, exhausted := 0, [], [], false;
    while !IsOver(status)
      invariant magic == draw && consumed <= |words|
      invariant |rendered| == |messages|
      invariant forall i :: 0 <= i < |rendered| ==>
        IsKnownStatus(rendered[i]) && Render(rendered[i], draw) == Ok(messages[i])
      invariant messages == Transcript(words[..consumed], draw)
      invariant IsOver(status) ==> StoppedAt(words, consumed, draw, status)
      invariant !IsOver(status) ==> StillGuessing(words, consumed, draw, status)
      decreases |words| - consumed
    {
      var prompt := ProcessInput(words, consumed);
      if prompt.EndOfInput? {
        // `input()` raises EOFError: the loop is left without a verdict
        RanOut(words, consumed, draw, status);
        consumed, exhausted := |words|, true;
        return;
      }
      ghost var before := consumed;
      consumed := prompt.next;
      var next := Update(status, magic, prompt.playerNumber);
      Turn(words, before, consumed, draw, status, next.0);
      status, magic := next.0, next.1;
      var message := Render(status, magic).value;
      rendered, messages := rendered + [status], messages + [message];
    }
  }
}
