/** The command processor: requests are answered as the map specifies. */
module Commands {
  import opened Bytes
  import opened Orders
  import opened SortedMap
  import opened SkipListIndex
  import opened Recovery
  import opened RespFormat
  import opened KvStores

  function UpperByte(b: byte): byte { if 97 <= b <= 122 then b - 32 else b }

  function ToUpper(text: Bytes): (t: Bytes)
    ensures |t| == |text|
  {
    seq(|text|, i requires 0 <= i < |text| => UpperByte(text[i]))
  }

  // ------------------------------------------------------------ specification

  datatype Command = NoCommand | Ping | Get(key: Bytes) | Del(key: Bytes) | Scan(start: Bytes, end: Bytes) | Quit
    | Checkpoint | Put(key: Bytes, value: Bytes) | Misused(usage: Bytes) | UnknownCommand

  function Usage(text: string): Command { Misused(Ascii("ERROR usage: ") + Ascii(text)) }

  /** What a request asks for. Command words are compared without regard to case. */
  function Parse(tokens: Request): Command {
    if tokens == [] then NoCommand
    else
      var word, args := ToUpper(tokens[0]), tokens[1..];
      if word == Ascii("PING") then if args == [] then Ping else Usage("PING")
      else if word == Ascii("GET") then if |args| == 1 then Get(args[0]) else Usage("GET <key>")
      else if word == Ascii("DEL") then if |args| == 1 then Del(args[0]) else Usage("DEL <key>")
      else if word == Ascii("SCAN") then if |args| == 2 then Scan(args[0], args[1]) else Usage("SCAN <start> <end>")
      else if word == Ascii("QUIT") then if args == [] then Quit else Usage("QUIT")
      else if word == Ascii("CHECKPOINT") then if args == [] then Checkpoint else Usage("CHECKPOINT")
      else if word == Ascii("PUT") then
        if |args| == 2 && args[0] != [] && args[1] != [] then Put(args[0], args[1]) else Usage("PUT <key> <value>")
      else UnknownCommand
  }

  /** Does the server hang up after answering? The QUIT word decides, whatever its arguments. */
  predicate IsQuit(tokens: Request) { tokens != [] && ToUpper(tokens[0]) == Ascii("QUIT") }

  /** The map after a command. */
  function Updated(m: Contents, c: Command): Contents {
    match c
    case Put(k, v) => m[k := v]
    case Del(k) => m - {k}
    case _ => m
  }

  function PairText(p: (Bytes, Bytes)): Bytes { Ascii(" ") + p.0 + Ascii("=") + p.1 }

  function PairsText(pairs: Pairs): Bytes {
    if pairs == [] then [] else PairsText(pairs[..|pairs| - 1]) + PairText(pairs[|pairs| - 1])
  }

  /** The answer without its line end. Only a checkpoint may fail for reasons outside the map. */
  ghost function Answer(m: Contents, c: Command, checkpoint: CheckpointResult): Bytes {
    match c
    case NoCommand => Ascii("ERROR empty command")
    case Ping => Ascii("PONG")
    case Get(k) => if k in m then Ascii("VALUE ") + m[k] else Ascii("NOT_FOUND")
    case Del(k) => if k in m then Ascii("OK DELETE") else Ascii("NOT_FOUND")
    case Scan(start, end) =>
      LexOrder();
      var pairs := Listing(LexLess, Range(LexLess, m, start, end));
      Ascii("RESULT ") + Decimal(|pairs|) + PairsText(pairs)
    case Quit => Ascii("BYE")
    case Checkpoint =>
      (match checkpoint
       case Done => Ascii("OK CHECKPOINT")
       case Unavailable => Ascii("ERROR checkpoint unavailable")
       case Failed => Ascii("ERROR checkpoint failed"))
    case Put(k, v) => if k in m then Ascii("OK UPDATE") else Ascii("OK PUT")
    case Misused(usage) => usage
    case UnknownCommand => Ascii("ERROR unknown command")
  }

  ghost function Respond(m: Contents, tokens: Request, checkpoint: CheckpointResult): Bytes {
    Answer(m, Parse(tokens), checkpoint) + CRLF
  }

  /** A request that makes the server hang up changes nothing, and every request has an answer. */
  lemma QuitAnswers(m: Contents, tokens: Request, checkpoint: CheckpointResult)
    ensures IsQuit(tokens) ==> Updated(m, Parse(tokens)) == m
    ensures Parse(tokens) == Quit ==> IsQuit(tokens)
    ensures Respond(m, tokens, checkpoint) != []
  {
    hide ToUpper;
    DifferentWords();
  }

  /** The answer to GET tells exactly whether the key is present, and its value. */
  lemma GetTellsAll(m: Contents, m': Contents, key: Bytes, checkpoint: CheckpointResult)
    ensures Answer(m, Get(key), checkpoint) == Answer(m', Get(key), checkpoint) <==>
              (key in m <==> key in m') && (key in m && key in m' ==> m[key] == m'[key])
  {
    var value, absent := Ascii("VALUE "), Ascii("NOT_FOUND");
    assert value[0] == 86 && absent[0] == 78;
    hide Ascii;
    if key in m && key in m' {
      assert (value + m[key])[|value|..] == m[key] && (value + m'[key])[|value|..] == m'[key];
    }
  }

  lemma DifferentWords()
    ensures Ascii("QUIT") != Ascii("PING") && Ascii("QUIT") != Ascii("GET") && Ascii("QUIT") != Ascii("DEL")
            && Ascii("QUIT") != Ascii("SCAN") && Ascii("QUIT") != Ascii("CHECKPOINT") && Ascii("QUIT") != Ascii("PUT")
  {
    assert Ascii("QUIT")[0] == 81 && Ascii("PING")[0] == 80 && Ascii("SCAN")[0] == 83 && Ascii("PUT")[0] == 80;
    assert Ascii("GET")[0] == 71 && Ascii("DEL")[0] == 68 && Ascii("CHECKPOINT")[0] == 67;
  }

  // ---------------------------------------------------------------- execution

  /** The sizes that a durable update must keep to. */
  predicate TokensFit(tokens: Request) { forall t :: t in tokens ==> |t| < TWO32 }

  class CommandProcessor {
    const store: KVStore

    constructor (store: KVStore)
      ensures this.store == store
    {
      this.store := store;
    }

    /**
     * Execute on tokens. The answer and the new map are those of the specification,
     * and on a healthy store with the log enabled every crash point of the call
     * recovers to the map before or after it, unless the call is a checkpoint that
     * puts a short snapshot in place. A completed checkpoint that does not makes any
     * store with a log healthy.
     */
    method Execute(tokens: Request, pad: Bytes, disk: DiskAnswers)
        returns (response: Bytes, checkpoint: CheckpointResult, ghost whole: bool)
      requires store.Valid() && |pad| == 3
      modifies store, store.index, store.index.head, store.index.live, store.log
      ensures store.Valid() && store.Map() == Updated(old(store.Map()), Parse(tokens))
      ensures response == Respond(old(store.Map()), tokens, checkpoint)
      ensures forall n :: n in store.index.live ==> n in old(store.index.live) || fresh(n)
      ensures old(store.trace) <= store.trace && (!whole ==> Parse(tokens) == Checkpoint && !disk.canClose)
      ensures Parse(tokens) == Checkpoint ==> checkpoint == CheckpointOutcome(store.walEnabled, disk)
      ensures store.walEnabled && old(store.Recoverable()) && LogIntact(old(store.log.data))
                && SizesOk(old(store.Map())) && TokensFit(tokens) && whole ==>
              && store.Recoverable() && LogIntact(store.log.data)
              && CutBetween(store.trace, |old(store.trace)|, |store.trace|, old(store.Map()), store.Map())
      ensures Parse(tokens) == Checkpoint && checkpoint == Done && whole && SizesOk(old(store.Map())) ==>
                store.walEnabled && store.Recoverable() && LogIntact(store.log.data)
    {
      hide SkipList.Valid, SkipList.Map, LogIntact, Recover, SizesOk, ToUpper;
      checkpoint, whole := Done, true;
      if tokens == [] { return Ascii("ERROR empty command") + CRLF, checkpoint, true; }
      var command := ToUpper(tokens[0]);
      response, checkpoint, whole := ExecuteCommand(command, tokens[1..], tokens, pad, disk);
    }

    method ExecuteCommand(command: Bytes, args: seq<Bytes>, ghost tokens: Request, pad: Bytes,
                          disk: DiskAnswers)
      returns (response: Bytes, checkpoint: CheckpointResult, ghost whole: bool)
      requires store.Valid() && |pad| == 3 && tokens != [] && command == ToUpper(tokens[0]) && args == tokens[1..]
      modifies store, store.index, store.index.head, store.index.live, store.log
      ensures store.Valid() && store.Map() == Updated(old(store.Map()), Parse(tokens))
      ensures response == Respond(old(store.Map()), tokens, checkpoint)
      ensures forall n :: n in store.index.live ==> n in old(store.index.live) || fresh(n)
      ensures old(store.trace) <= store.trace && (!whole ==> Parse(tokens) == Checkpoint && !disk.canClose)
      ensures Parse(tokens) == Checkpoint ==> checkpoint == CheckpointOutcome(store.walEnabled, disk)
      ensures store.walEnabled && old(store.Recoverable()) && LogIntact(old(store.log.data))
                && SizesOk(old(store.Map())) && TokensFit(tokens) && whole ==>
              && store.Recoverable() && LogIntact(store.log.data)
              && CutBetween(store.trace, |old(store.trace)|, |store.trace|, old(store.Map()), store.Map())
      ensures Parse(tokens) == Checkpoint && checkpoint == Done && whole && SizesOk(old(store.Map())) ==>
                store.walEnabled && store.Recoverable() && LogIntact(store.log.data)
    {
      hide SkipList.Valid, SkipList.Map, LogIntact, Recover, SizesOk, ToUpper, Ascii;
      checkpoint, whole := Done, true;
      if command == Ascii("PING") {
        return if args == [] then Ascii("PONG") + CRLF else Usage("PING").usage + CRLF, checkpoint, true;
      }
      if command == Ascii("GET") {
        if |args| != 1 { return Usage("GET <key>").usage + CRLF, checkpoint, true; }
        var found, value := store.Get(args[0]);
        if !found { return Ascii("NOT_FOUND") + CRLF, checkpoint, true; }
        return Ascii("VALUE ") + value + CRLF, checkpoint, true;
      }
      if command == Ascii("DEL") {
        if |args| != 1 { return Usage("DEL <key>").usage + CRLF, checkpoint, true; }
        var deleted := store.Delete(args[0], pad);
        return if deleted then Ascii("OK DELETE") + CRLF else Ascii("NOT_FOUND") + CRLF, checkpoint, true;
      }
      if command == Ascii("SCAN") {
        if |args| != 2 { return Usage("SCAN <start> <end>").usage + CRLF, checkpoint, true; }
        response := ScanReply(args[0], args[1]);
        return;
      }
      if command == Ascii("QUIT") {
        return if args == [] then Ascii("BYE") + CRLF else Usage("QUIT").usage + CRLF, checkpoint, true;
      }
      if command == Ascii("CHECKPOINT") {
        if args != [] { return Usage("CHECKPOINT").usage + CRLF, checkpoint, true; }
        checkpoint, whole := store.Checkpoint(disk);
        match checkpoint {
          case Done => response := Ascii("OK CHECKPOINT") + CRLF;
          case Unavailable => response := Ascii("ERROR checkpoint unavailable") + CRLF;
          case Failed => response := Ascii("ERROR checkpoint failed") + CRLF;
        }
        return;
      }
      if command == Ascii("PUT") {
        if |args| != 2 || args[0] == [] || args[1] == [] {
          return Usage("PUT <key> <value>").usage + CRLF, checkpoint, true;
        }
        var inserted := store.Put(args[0], args[1], pad);
        return if inserted then Ascii("OK PUT") + CRLF else Ascii("OK UPDATE") + CRLF, checkpoint, true;
      }
      return Ascii("ERROR unknown command") + CRLF, checkpoint, true;
    }

    method ScanReply(start: Bytes, end: Bytes) returns (output: Bytes)
      requires store.Valid()
      ensures output == Answer(store.Map(), Scan(start, end), Done) + CRLF
    {
      hide SkipList.Valid, SkipList.Map, Lists, Ascii, Decimal, PairsText, Range, Listing;
      var pairs := store.Scan(start, end);
      LexOrder();
      ListsUnique(LexLess, Range(LexLess, store.Map(), start, end), pairs,
          Listing(LexLess, Range(LexLess, store.Map(), start, end)));
      output := WritePairs(Ascii("RESULT ") + Decimal(|pairs|), pairs);
      output := output + CRLF;
    }

    /** The output-building loop of SCAN. */
    static method WritePairs(head: Bytes, pairs: Pairs) returns (output: Bytes)
      ensures output == head + PairsText(pairs)
    {
      hide Ascii;
      output := head;
      for i := 0 to |pairs|
        invariant output == head + PairsText(pairs[..i])
      {
        assert pairs[..i + 1][..i] == pairs[..i];
        ghost var before := output;
        output := output + Ascii(" ");
        output := output + pairs[i].0;
        output := output + Ascii("=");
        output := output + pairs[i].1;
        assert output == before + PairText(pairs[i]);
      }
      assert pairs[..|pairs|] == pairs;
    }
  }
}
