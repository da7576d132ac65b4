/**
 The parameters of a test, which the client sends to the server as the words of a command line behind one length byte.
 */
module Parameters {
  import opened Options
  import opened Decimal
  import opened Tokens

  datatype Protocol = Tcp | Udp

  datatype Settings = Settings(
    protocol: Protocol,
    numStreams: int,
    reverse: bool,
    socketBufsize: int,
    rate: nat,
    mss: int,
    noDelay: bool,
    bytes: nat,
    duration: int,
    blksize: int,
    tos: int
  )

  predicate IsInt(n: int) {
    -0x8000_0000 <= n < 0x8000_0000
  }

  /** The fields are in the range of their C types. */
  predicate InRange(s: Settings) {
    && IsInt(s.numStreams) && IsInt(s.socketBufsize) && IsInt(s.mss) && IsInt(s.duration)
    && IsInt(s.blksize) && IsInt(s.tos)
    && s.rate < 0x1_0000_0000_0000_0000 && s.bytes < 0x1_0000_0000_0000_0000
  }

  // ---------- What the client writes ----------

  function Flag(letter: char, on: bool): seq<string> {
    if on then [['-', letter]] else []
  }

  function Number(letter: char, n: int): seq<string> {
    if n != 0 then [['-', letter], PrintInt(n)] else []
  }

  function ProtocolWord(p: Protocol): string {
    if p.Tcp? then "-p" else "-u"
  }

  /** The options behind the protocol. */
  function OptionWords(s: Settings): seq<string> {
    ["-P", PrintInt(s.numStreams)] + (
      Flag('R', s.reverse) + (Number('w', s.socketBufsize) + (Number('b', s.rate) + (Number('m', s.mss) + (
      Flag('N', s.noDelay) + (Number('n', s.bytes) + (Number('t', s.duration) + (Number('l', s.blksize) + (
      Number('S', s.tos) + [])))))))))
  }

  function Words(s: Settings): seq<string> {
    [ProtocolWord(s.protocol)] + OptionWords(s)
  }

  lemma {:induction false} SpacedConcat(a: seq<string>, b: seq<string>)
    ensures Spaced(a + b) == Spaced(a) + Spaced(b)
  {
    if a == [] {
      assert a + b == b;
    } else {
      assert (a + b)[1..] == a[1..] + b;
      SpacedConcat(a[1..], b);
    }
  }

  lemma SpacedFew(w: string, v: string)
    ensures Spaced([]) == "" && Spaced([w]) == w + " " && Spaced([w, v]) == w + " " + v + " "
  {
    assert [w][1..] == [] && [w, v][1..] == [v] && [v][1..] == [];
  }

  function FlagText(text: string, on: bool): string {
    if on then text else ""
  }

  function NumberText(text: string, n: int): string {
    if n != 0 then text + PrintInt(n) + " " else ""
  }

  lemma FlagInText(letter: char, on: bool, rest: seq<string>)
    ensures Spaced(Flag(letter, on) + rest) == FlagText(['-', letter, ' '], on) + Spaced(rest)
  {
    SpacedConcat(Flag(letter, on), rest);
    SpacedFew(['-', letter], "");
  }

  lemma NumberInText(letter: char, n: int, rest: seq<string>)
    ensures Spaced(Number(letter, n) + rest) == NumberText(['-', letter, ' '], n) + Spaced(rest)
  {
    SpacedConcat(Number(letter, n), rest);
    SpacedFew(['-', letter], PrintInt(n));
    assert n != 0 ==> Spaced(Number(letter, n)) == NumberText(['-', letter, ' '], n);
  }

  /** The whole text: the protocol first, the number of streams, and every option that is set, in this order. */
  lemma BodyText(s: Settings)
    ensures
      Spaced(Words(s))
      == (if s.protocol.Tcp? then "-p " else "-u ")
         + (("-P " + PrintInt(s.numStreams) + " ")
         + (FlagText("-R ", s.reverse)
         + (NumberText("-w ", s.socketBufsize)
         + (NumberText("-b ", s.rate)
         + (NumberText("-m ", s.mss)
         + (FlagText("-N ", s.noDelay)
         + (NumberText("-n ", s.bytes)
         + (NumberText("-t ", s.duration)
         + (NumberText("-l ", s.blksize)
         + (NumberText("-S ", s.tos) + ""))))))))))
  {
    hide Spaced, Flag, Number, FlagText, NumberText, PrintInt;
    var r8 := Number('S', s.tos) + [];
    var r7 := Number('l', s.blksize) + r8;
    var r6 := Number('t', s.duration) + r7;
    var r5 := Number('n', s.bytes) + r6;
    var r4 := Flag('N', s.noDelay) + r5;
    var r3 := Number('m', s.mss) + r4;
    var r2 := Number('b', s.rate) + r3;
    var r1 := Number('w', s.socketBufsize) + r2;
    var r0 := Flag('R', s.reverse) + r1;
    assert OptionWords(s) == ["-P", PrintInt(s.numStreams)] + r0;
    FrontText(s, r0);
    FlagInText('R', s.reverse, r1);
    NumberInText('w', s.socketBufsize, r2);
    NumberInText('b', s.rate, r3);
    NumberInText('m', s.mss, r4);
    FlagInText('N', s.noDelay, r5);
    NumberInText('n', s.bytes, r6);
    NumberInText('t', s.duration, r7);
    NumberInText('l', s.blksize, r8);
    NumberInText('S', s.tos, []);
    SpacedFew("", "");
  }

  lemma FrontText(s: Settings, rest: seq<string>)
    requires OptionWords(s) == ["-P", PrintInt(s.numStreams)] + rest
    ensures
      Spaced(Words(s))
      == (if s.protocol.Tcp? then "-p " else "-u ") + (("-P " + PrintInt(s.numStreams) + " ") + Spaced(rest))
  {
    hide OptionWords;
    SpacedConcat([ProtocolWord(s.protocol)], OptionWords(s));
    SpacedConcat(["-P", PrintInt(s.numStreams)], rest);
    SpacedFew(ProtocolWord(s.protocol), "");
    SpacedFew("-P", PrintInt(s.numStreams));
  }

  /** The length as one signed byte. */
  function LengthByte(n: nat): int
    requires n < 256
  {
    if n < 128 then n else n - 256
  }

  // ---------- What the server reads ----------

  /** atoi and atoll: no digits are 0, and a number too large for 64 bits is the largest. */
  function Atoll(word: string): int {
    match ReadInt(word)
    case None => 0
    case Some((n, _)) => Saturated(n)
  }

  function Saturated(n: int): int {
    if n > 0x7fff_ffff_ffff_ffff then 0x7fff_ffff_ffff_ffff
    else if n < -0x8000_0000_0000_0000 then -0x8000_0000_0000_0000
    else n
  }

  /** A negative number stored in an unsigned 64-bit field. */
  function Unsigned(n: int): nat {
    n % 0x1_0000_0000_0000_0000
  }

  /** A 64-bit number stored in an int. */
  function Truncated(n: int): int {
    (n + 0x8000_0000) % 0x1_0000_0000 - 0x8000_0000
  }

  predicate TakesNumber(letter: char) {
    letter in "tnmPwlbS"
  }

  function SetFlag(s: Settings, letter: char): Settings {
    match letter
    case 'p' => s.(protocol := Tcp)
    case 'u' => s.(protocol := Udp)
    case 'N' => s.(noDelay := true)
    case 'R' => s.(reverse := true)
    case _ => s
  }

  function SetNumber(s: Settings, letter: char, n: int): Settings {
    match letter
    case 't' => s.(duration := Truncated(n))
    case 'n' => s.(bytes := Unsigned(n))
    case 'm' => s.(mss := Truncated(n))
    case 'P' => s.(numStreams := Truncated(n))
    case 'w' => s.(socketBufsize := Truncated(n))
    case 'l' => s.(blksize := Truncated(n))
    case 'b' => s.(rate := Unsigned(n))
    case 'S' => s.(tos := Truncated(n))
    case _ => s
  }

  predicate IsOption(word: string) {
    |word| == 2 && word[0] == '-' && word[1] != '-'
  }

  /** The settings after these words; a word that is no option, and an option without its number, change nothing. */
  function AfterWords(s: Settings, words: seq<string>): Settings
    decreases |words|
  {
    if words == [] then s
    else if !IsOption(words[0]) then AfterWords(s, words[1..])
    else if !TakesNumber(words[0][1]) then AfterWords(SetFlag(s, words[0][1]), words[1..])
    else if |words| == 1 then s
    else AfterWords(SetNumber(s, words[0][1], Atoll(words[1])), words[2..])
  }

  // ---------- The two ends ----------

  class Test {
    var protocol: Protocol
    var numStreams: int
    var reverse: bool
    var socketBufsize: int
    var rate: nat
    var mss: int
    var noDelay: bool
    var bytes: nat
    var duration: int
    var blksize: int
    var tos: int

    function Values(): Settings
      reads this
    {
      Settings(protocol, numStreams, reverse, socketBufsize, rate, mss, noDelay, bytes, duration, blksize, tos)
    }

    /** The length byte and the words behind it. */
    method PackageParameters() returns (length: int, body: string)
      requires InRange(Values())
      ensures body == Spaced(Words(Values())) && |body| < 256 && length == LengthByte(|body|)
    {
      hide Spaced, Flag, Number;
      ghost var s := Values();
      ghost var r8 := Number('S', s.tos) + [];
      ghost var r7 := Number('l', s.blksize) + r8;
      ghost var r6 := Number('t', s.duration) + r7;
      ghost var r5 := Number('n', s.bytes) + r6;
      ghost var r4 := Flag('N', s.noDelay) + r5;
      ghost var r3 := Number('m', s.mss) + r4;
      ghost var r2 := Number('b', s.rate) + r3;
      ghost var r1 := Number('w', s.socketBufsize) + r2;
      ghost var r0 := Flag('R', s.reverse) + r1;
      SpacedFew(ProtocolWord(protocol), "");
      SpacedFew("-P", PrintInt(numStreams));
      SpacedConcat([ProtocolWord(protocol)], OptionWords(s));
      SpacedConcat(["-P", PrintInt(numStreams)], r0);
      body := ProtocolWord(protocol) + " ";
      body := body + ("-P" + " " + PrintInt(numStreams) + " ");
      assert OptionWords(s) == ["-P", PrintInt(numStreams)] + r0;
      assert body + Spaced(r0) == Spaced(Words(s));
      body := AppendFlag(body, 'R', reverse, r1);
      body := AppendNumber(body, 'w', socketBufsize, r2);
      body := AppendNumber(body, 'b', rate, r3);
      body := AppendNumber(body, 'm', mss, r4);
      body := AppendFlag(body, 'N', noDelay, r5);
      body := AppendNumber(body, 'n', bytes, r6);
      body := AppendNumber(body, 't', duration, r7);
      body := AppendNumber(body, 'l', blksize, r8);
      body := AppendNumber(body, 'S', tos, []);
      SpacedFew("", "");
      BodyFits(s);
      length := LengthByte(|body|);
    }

    /** Reads as many characters as the length byte says, none if it is negative, and obeys the options among them. */
    method ParseParameters(length: int, input: string) returns (unread: string)
      requires length <= |input|
      modifies this
      ensures input == Delivered(length, input) + unread
      ensures Values() == AfterWords(old(Values()), BehindFirst(Split(Delivered(length, input))))
    {
      hide AfterWords;
      var pstring := if length > 0 then input[..length] else "";
      unread := input[|pstring|..];
      var params := Split(pstring);
      var optind := 1;
      EndOfWords(Values(), params, optind);
      while optind < |params|
        invariant 1 <= optind && (params == [] || optind <= |params|)
        invariant params != [] ==> AfterWords(Values(), params[optind..]) == AfterWords(old(Values()), params[1..])
        invariant params == [] ==> Values() == old(Values())
      {
        var word := params[optind];
        NextWord(Values(), params, optind);
        optind := optind + 1;
        if IsOption(word) {
          if !TakesNumber(word[1]) {
            ObeyFlag(word[1]);
          } else if optind < |params| {
            ObeyNumber(word[1], Atoll(params[optind]));
            optind := optind + 1;
          }
        }
      }
      EndOfWords(Values(), params, optind);
    }

    method ObeyFlag(ch: char)
      modifies this
      ensures Values() == SetFlag(old(Values()), ch)
    {
      match ch {
        case 'p' => protocol := Tcp;
        case 'u' => protocol := Udp;
        case 'N' => noDelay := true;
        case 'R' => reverse := true;
        case _ =>
      }
    }

    method ObeyNumber(ch: char, n: int)
      modifies this
      ensures Values() == SetNumber(old(Values()), ch, n)
    {
      match ch {
        case 't' => duration := Truncated(n);
        case 'n' => bytes := Unsigned(n);
        case 'm' => mss := Truncated(n);
        case 'P' => numStreams := Truncated(n);
        case 'w' => socketBufsize := Truncated(n);
        case 'l' => blksize := Truncated(n);
        case 'b' => rate := Unsigned(n);
        case 'S' => tos := Truncated(n);
        case _ =>
      }
    }
  }

  /** What Nread gives for this length. */
  function Delivered(length: int, input: string): string
    requires length <= |input|
  {
    if length > 0 then input[..length] else ""
  }

  /** getopt takes the first word for the name of the program. */
  function BehindFirst(words: seq<string>): seq<string> {
    if words == [] then [] else words[1..]
  }

  lemma NextWord(s: Settings, words: seq<string>, k: nat)
    requires k < |words|
    ensures AfterWords(s, words[k..]) ==
              if !IsOption(words[k]) then AfterWords(s, words[k + 1..])
              else if !TakesNumber(words[k][1]) then AfterWords(SetFlag(s, words[k][1]), words[k + 1..])
              else if k + 1 == |words| then AfterWords(s, words[k + 1..])
              else AfterWords(SetNumber(s, words[k][1], Atoll(words[k + 1])), words[k + 2..])
  {
    assert words[k..][0] == words[k] && words[k..][1..] == words[k + 1..];
    if k + 1 < |words| {
      assert words[k..][1] == words[k + 1] && words[k..][2..] == words[k + 2..];
    }
    hide SetFlag, SetNumber, Atoll, IsOption, TakesNumber;
  }

  lemma EndOfWords(s: Settings, words: seq<string>, k: nat)
    ensures AfterWords(s, []) == s
    ensures k == |words| ==> AfterWords(s, words[k..]) == s
  {
  }

  // ---------- What arrives ----------

  function On(s: Settings, letter: char, on: bool): Settings {
    if on then SetFlag(s, letter) else s
  }

  function Put(s: Settings, letter: char, n: int): Settings {
    if n != 0 then SetNumber(s, letter, Saturated(n)) else s
  }

  lemma FlagStep(s: Settings, letter: char, on: bool, rest: seq<string>)
    requires letter != '-' && !TakesNumber(letter)
    ensures AfterWords(s, Flag(letter, on) + rest) == AfterWords(On(s, letter, on), rest)
  {
    hide SetFlag;
    if on {
      assert (Flag(letter, on) + rest)[1..] == rest;
    } else {
      assert Flag(letter, on) + rest == rest;
    }
  }

  lemma NumberStep(s: Settings, letter: char, n: int, rest: seq<string>)
    requires TakesNumber(letter)
    ensures AfterWords(s, Number(letter, n) + rest) == AfterWords(Put(s, letter, n), rest)
  {
    if n != 0 {
      NumberAlways(s, letter, n, rest);
    } else {
      assert Number(letter, n) + rest == rest;
    }
  }

  lemma NumberAlways(s: Settings, letter: char, n: int, rest: seq<string>)
    requires TakesNumber(letter)
    ensures AfterWords(s, [['-', letter], PrintInt(n)] + rest) == AfterWords(SetNumber(s, letter, Saturated(n)), rest)
  {
    ReadPrintedInt(n, "");
    assert PrintInt(n) + "" == PrintInt(n);
    var words := [['-', letter], PrintInt(n)] + rest;
    assert words[2..] == rest;
    hide SetNumber, ReadInt, PrintInt;
  }

  function Pick(sent: int, kept: int): int {
    if sent != 0 then sent else kept
  }

  /**
   The server's settings after the client's options. The client's protocol is not among them: its word comes first,
   where a command line has the name of the program, and is skipped.
   */
  function Overlay(sender: Settings, receiver: Settings): Settings {
    Settings(
      receiver.protocol,
      sender.numStreams,
      sender.reverse || receiver.reverse,
      Pick(sender.socketBufsize, receiver.socketBufsize),
      if sender.rate != 0 then Saturated(sender.rate) else receiver.rate,
      Pick(sender.mss, receiver.mss),
      sender.noDelay || receiver.noDelay,
      if sender.bytes != 0 then Saturated(sender.bytes) else receiver.bytes,
      Pick(sender.duration, receiver.duration),
      Pick(sender.blksize, receiver.blksize),
      Pick(sender.tos, receiver.tos)
    )
  }

  /** The settings as the options come in, one after the other. */
  function InTurn(sender: Settings, receiver: Settings): Settings {
    var s0 := SetNumber(receiver, 'P', Saturated(sender.numStreams));
    var s1 := Put(On(s0, 'R', sender.reverse), 'w', sender.socketBufsize);
    var s2 := Put(Put(s1, 'b', sender.rate), 'm', sender.mss);
    var s3 := Put(On(s2, 'N', sender.noDelay), 'n', sender.bytes);
    Put(Put(Put(s3, 't', sender.duration), 'l', sender.blksize), 'S', sender.tos)
  }

  lemma OptionsInTurn(sender: Settings, receiver: Settings)
    ensures AfterWords(receiver, OptionWords(sender)) == InTurn(sender, receiver)
  {
    var r8 := Number('S', sender.tos) + [];
    var r7 := Number('l', sender.blksize) + r8;
    var r6 := Number('t', sender.duration) + r7;
    var r5 := Number('n', sender.bytes) + r6;
    var r4 := Flag('N', sender.noDelay) + r5;
    var r3 := Number('m', sender.mss) + r4;
    var r2 := Number('b', sender.rate) + r3;
    var r1 := Number('w', sender.socketBufsize) + r2;
    var r0 := Flag('R', sender.reverse) + r1;
    hide AfterWords, SetNumber, SetFlag, Put, On, Number, Flag, PrintInt;
    var s0 := SetNumber(receiver, 'P', Saturated(sender.numStreams));
    NumberAlways(receiver, 'P', sender.numStreams, r0);
    FlagStep(s0, 'R', sender.reverse, r1);
    var s1 := On(s0, 'R', sender.reverse);
    NumberStep(s1, 'w', sender.socketBufsize, r2);
    var s2 := Put(s1, 'w', sender.socketBufsize);
    NumberStep(s2, 'b', sender.rate, r3);
    var s3 := Put(s2, 'b', sender.rate);
    NumberStep(s3, 'm', sender.mss, r4);
    var s4 := Put(s3, 'm', sender.mss);
    FlagStep(s4, 'N', sender.noDelay, r5);
    var s5 := On(s4, 'N', sender.noDelay);
    NumberStep(s5, 'n', sender.bytes, r6);
    var s6 := Put(s5, 'n', sender.bytes);
    NumberStep(s6, 't', sender.duration, r7);
    var s7 := Put(s6, 't', sender.duration);
    NumberStep(s7, 'l', sender.blksize, r8);
    var s8 := Put(s7, 'l', sender.blksize);
    NumberStep(s8, 'S', sender.tos, []);
    EndOfWords(Put(s8, 'S', sender.tos), [], 0);
  }

  lemma FitsField(n: int)
    ensures IsInt(n) ==> Truncated(Saturated(n)) == n
    ensures n >= 0 ==> Unsigned(Saturated(n)) == Saturated(n) >= 0
  {
  }

  lemma PutInt(s: Settings, n: int)
    requires IsInt(n)
    ensures SetNumber(s, 'P', Saturated(n)) == s.(numStreams := n)
    ensures Put(s, 'w', n) == s.(socketBufsize := Pick(n, s.socketBufsize))
    ensures Put(s, 'm', n) == s.(mss := Pick(n, s.mss))
    ensures Put(s, 't', n) == s.(duration := Pick(n, s.duration))
    ensures Put(s, 'l', n) == s.(blksize := Pick(n, s.blksize))
    ensures Put(s, 'S', n) == s.(tos := Pick(n, s.tos))
  {
    FitsField(n);
    hide Truncated, Saturated;
  }

  lemma PutWide(s: Settings, n: nat)
    ensures Put(s, 'b', n) == s.(rate := if n != 0 then Saturated(n) else s.rate)
    ensures Put(s, 'n', n) == s.(bytes := if n != 0 then Saturated(n) else s.bytes)
  {
    FitsField(n);
    hide Unsigned, Saturated;
  }

  lemma InTurnIsOverlay(sender: Settings, receiver: Settings)
    requires InRange(sender)
    ensures InTurn(sender, receiver) == Overlay(sender, receiver)
  {
    hide SetNumber, Put, Saturated, Pick;
    var s := receiver.(numStreams := sender.numStreams);
    PutInt(receiver, sender.numStreams);
    s := On(s, 'R', sender.reverse);
    PutInt(s, sender.socketBufsize);
    s := Put(s, 'w', sender.socketBufsize);
    PutWide(s, sender.rate);
    s := Put(s, 'b', sender.rate);
    PutInt(s, sender.mss);
    s := On(Put(s, 'm', sender.mss), 'N', sender.noDelay);
    PutWide(s, sender.bytes);
    s := Put(s, 'n', sender.bytes);
    PutInt(s, sender.duration);
    s := Put(s, 't', sender.duration);
    PutInt(s, sender.blksize);
    s := Put(s, 'l', sender.blksize);
    PutInt(s, sender.tos);
  }

  /**
   Every option arrives exactly, up to the largest signed 64-bit number; what the client leaves out stays as it was.
   */
  lemma OptionsArrive(sender: Settings, receiver: Settings)
    requires InRange(sender)
    ensures AfterWords(receiver, OptionWords(sender)) == Overlay(sender, receiver)
  {
    OptionsInTurn(sender, receiver);
    InTurnIsOverlay(sender, receiver);
  }

  lemma WordsAreWords(s: Settings)
    ensures forall w :: w in Words(s) ==> IsWord(w)
  {
    FlagIsWord('R', s.reverse);
    NumberIsWord('w', s.socketBufsize);
    NumberIsWord('b', s.rate);
    NumberIsWord('m', s.mss);
    FlagIsWord('N', s.noDelay);
    NumberIsWord('n', s.bytes);
    NumberIsWord('t', s.duration);
    NumberIsWord('l', s.blksize);
    NumberIsWord('S', s.tos);
    IntIsWord(s.numStreams);
    hide Flag, Number, PrintInt;
  }

  lemma IntIsWord(n: int)
    ensures IsWord(PrintInt(n))
  {
    NoSeparator(n, 0, ' ');
    PrintIsDigits(if n < 0 then -n else n);
  }

  lemma FlagIsWord(letter: char, on: bool)
    requires letter != ' '
    ensures forall w :: w in Flag(letter, on) ==> IsWord(w)
  {
  }

  lemma NumberIsWord(letter: char, n: int)
    requires letter != ' '
    ensures forall w :: w in Number(letter, n) ==> IsWord(w)
  {
    IntIsWord(n);
  }

  /** The server's settings after it has read a client's parameters, with anything else behind them. */
  function Received(sender: Settings, receiver: Settings, more: string): Settings
    requires |Spaced(Words(sender))| < 256
  {
    var body := Spaced(Words(sender));
    AfterWords(receiver, BehindFirst(Split(Delivered(LengthByte(|body|), body + more))))
  }

  /** Up to 127 characters arrive as the overlay of the sender's settings; of a longer text nothing is read. */
  lemma ParametersArrive(sender: Settings, receiver: Settings, more: string)
    requires InRange(sender)
    ensures |Spaced(Words(sender))| <= 147
    ensures
      Received(sender, receiver, more)
      == if |Spaced(Words(sender))| <= 127 then Overlay(sender, receiver) else receiver
  {
    var body := Spaced(Words(sender));
    BodyFits(sender);
    WordsAreWords(sender);
    SplitSpaced(Words(sender));
    OptionsArrive(sender, receiver);
    hide Spaced, Split, AfterWords, OptionWords, Overlay;
    if |body| <= 127 {
      assert (body + more)[..|body|] == body;
      assert Words(sender)[1..] == OptionWords(sender);
    } else {
      NothingSplit();
      EndOfWords(receiver, [], 0);
    }
  }

  lemma NothingSplit()
    ensures Split("") == []
  {
  }

  /** What the receiver must have had before in the fields that the sender leaves out. */
  predicate AgreeWhereSilent(sender: Settings, receiver: Settings) {
    && receiver.protocol == sender.protocol
    && (receiver.reverse ==> sender.reverse)
    && (receiver.noDelay ==> sender.noDelay)
    && (sender.socketBufsize == 0 ==> receiver.socketBufsize == 0)
    && (sender.rate == 0 ==> receiver.rate == 0)
    && (sender.mss == 0 ==> receiver.mss == 0)
    && (sender.bytes == 0 ==> receiver.bytes == 0)
    && (sender.duration == 0 ==> receiver.duration == 0)
    && (sender.blksize == 0 ==> receiver.blksize == 0)
    && (sender.tos == 0 ==> receiver.tos == 0)
  }

  /**
   The server has the client's settings exactly if they were short enough to be read, no number was too large, and the
   two agreed before where the client is silent: in the protocol, and in every field that is zero or off.
   */
  lemma SettingsRecoveredIff(sender: Settings, receiver: Settings, more: string)
    requires InRange(sender) && |Spaced(Words(sender))| < 256
    ensures Received(sender, receiver, more) == sender <==>
              if |Spaced(Words(sender))| <= 127 then
                && sender.rate <= 0x7fff_ffff_ffff_ffff && sender.bytes <= 0x7fff_ffff_ffff_ffff
                && AgreeWhereSilent(sender, receiver)
              else sender == receiver
  {
    ParametersArrive(sender, receiver, more);
    hide Received, Spaced, Words;
  }

  method AppendFlag(pstring: string, letter: char, on: bool, ghost rest: seq<string>) returns (r: string)
    ensures r + Spaced(rest) == pstring + Spaced(Flag(letter, on) + rest)
  {
    SpacedConcat(Flag(letter, on), rest);
    SpacedFew(['-', letter], "");
    r := pstring;
    if on {
      r := r + ['-', letter, ' '];
    }
  }

  method AppendNumber(pstring: string, letter: char, n: int, ghost rest: seq<string>) returns (r: string)
    ensures r + Spaced(rest) == pstring + Spaced(Number(letter, n) + rest)
  {
    SpacedConcat(Number(letter, n), rest);
    SpacedFew(['-', letter], PrintInt(n));
    r := pstring;
    if n != 0 {
      r := r + (['-', letter, ' '] + PrintInt(n) + " ");
    }
  }

  /** 147 characters at most, which the 256 of the buffer hold, but not always the 127 of a signed length byte. */
  lemma BodyFits(s: Settings)
    requires InRange(s)
    ensures |Spaced(Words(s))| <= 147
  {
    BodyText(s);
    IntFits(s.numStreams);
    NumberFits("-w ", s.socketBufsize);
    NumberFits("-b ", s.rate);
    NumberFits("-m ", s.mss);
    NumberFits("-n ", s.bytes);
    NumberFits("-t ", s.duration);
    NumberFits("-l ", s.blksize);
    NumberFits("-S ", s.tos);
    hide Spaced, Words, NumberText, PrintInt;
  }

  lemma NumberFits(text: string, n: int)
    ensures IsInt(n) ==> |NumberText(text, n)| <= |text| + 12
    ensures 0 <= n < 0x1_0000_0000_0000_0000 ==> |NumberText(text, n)| <= |text| + 21
  {
    if IsInt(n) {
      IntFits(n);
    }
    if 0 <= n < 0x1_0000_0000_0000_0000 {
      FixedFits(n);
    }
  }
}
