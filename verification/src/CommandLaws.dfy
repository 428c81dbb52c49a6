/**
 * What a client may rely on: for every command, written in any mixture of cases, the
 * literal answer and the map afterwards, in terms of the tokens of the request alone.
 */
module CommandLaws {
  import opened Bytes
  import opened Orders
  import opened SortedMap
  import opened RespFormat
  import opened KvStores
  import opened Commands

  /** `w` is the word in some mixture of upper and lower case. */
  predicate Spells(w: Bytes, word: string) {
    |w| == |word| && forall i :: 0 <= i < |w| ==> w[i] as int in {word[i] as int, word[i] as int + 32}
  }

  predicate UpperWord(word: string) { forall c :: c in word ==> 'A' <= c <= 'Z' }

  function Line(text: string): Bytes { Ascii(text) + [13, 10] }

  /** Folding to upper case recognizes exactly the spellings of a word. */
  lemma SpellsFolded(w: Bytes, word: string)
    requires UpperWord(word)
    ensures Spells(w, word) <==> ToUpper(w) == Ascii(word)
  {
    if |w| == |word| {
      forall i | 0 <= i < |w|
        ensures w[i] as int in {word[i] as int, word[i] as int + 32} <==> ToUpper(w)[i] == Ascii(word)[i]
      {
        assert word[i] in word;
      }
    }
  }

  /** The seven words of the protocol, each folded to itself. */
  lemma WordsFolded(w: Bytes)
    ensures Spells(w, "PING") <==> ToUpper(w) == Ascii("PING")
    ensures Spells(w, "GET") <==> ToUpper(w) == Ascii("GET")
    ensures Spells(w, "DEL") <==> ToUpper(w) == Ascii("DEL")
    ensures Spells(w, "SCAN") <==> ToUpper(w) == Ascii("SCAN")
    ensures Spells(w, "QUIT") <==> ToUpper(w) == Ascii("QUIT")
    ensures Spells(w, "CHECKPOINT") <==> ToUpper(w) == Ascii("CHECKPOINT")
    ensures Spells(w, "PUT") <==> ToUpper(w) == Ascii("PUT")
  {
    hide Spells, ToUpper, Ascii;
    SpellsFolded(w, "PING");
    SpellsFolded(w, "GET");
    SpellsFolded(w, "DEL");
    SpellsFolded(w, "SCAN");
    SpellsFolded(w, "QUIT");
    SpellsFolded(w, "CHECKPOINT");
    SpellsFolded(w, "PUT");
  }

  lemma OtherWords()
    ensures Ascii("PING") != Ascii("QUIT") && Ascii("PING") != Ascii("SCAN")
    ensures Ascii("GET") != Ascii("DEL") && Ascii("GET") != Ascii("PUT") && Ascii("DEL") != Ascii("PUT")
    ensures Ascii("SCAN") != Ascii("QUIT")
    ensures |Ascii("PING")| == |Ascii("QUIT")| == |Ascii("SCAN")| == 4
    ensures |Ascii("GET")| == |Ascii("DEL")| == |Ascii("PUT")| == 3 && |Ascii("CHECKPOINT")| == 10
  {
    assert Ascii("PING")[0] == 80 && Ascii("QUIT")[0] == 81 && Ascii("SCAN")[0] == 83;
    assert Ascii("GET")[0] == 71 && Ascii("DEL")[0] == 68 && Ascii("PUT")[0] == 80;
  }

  /** PUT stores the value under the key, says whether the key was new, and GET reads it back. */
  lemma PutLaw(m: Contents, w: Bytes, k: Bytes, v: Bytes, g: Bytes, checkpoint: CheckpointResult)
    requires Spells(w, "PUT") && k != [] && v != [] && Spells(g, "GET")
    ensures Updated(m, Parse([w, k, v])) == m[k := v]
    ensures Respond(m, [w, k, v], checkpoint) == Line(if k in m then "OK UPDATE" else "OK PUT")
    ensures Respond(Updated(m, Parse([w, k, v])), [g, k], checkpoint) == Ascii("VALUE ") + v + [13, 10]
  {
    hide Spells, ToUpper, Ascii;
    WordsFolded(w);
    WordsFolded(g);
    OtherWords();
    assert [w, k, v][1..] == [k, v] && [g, k][1..] == [k];
  }

  /** DEL removes exactly the key, says whether it was there, and GET finds it no more. */
  lemma DelLaw(m: Contents, w: Bytes, k: Bytes, g: Bytes, checkpoint: CheckpointResult)
    requires Spells(w, "DEL") && Spells(g, "GET")
    ensures Updated(m, Parse([w, k])) == m - {k}
    ensures Respond(m, [w, k], checkpoint) == Line(if k in m then "OK DELETE" else "NOT_FOUND")
    ensures Respond(Updated(m, Parse([w, k])), [g, k], checkpoint) == Line("NOT_FOUND")
  {
    hide Spells, ToUpper, Ascii;
    WordsFolded(w);
    WordsFolded(g);
    OtherWords();
    assert [w, k][1..] == [k] && [g, k][1..] == [k];
  }

  /** GET leaves the map alone and answers the value of the key. */
  lemma GetLaw(m: Contents, w: Bytes, k: Bytes, checkpoint: CheckpointResult)
    requires Spells(w, "GET")
    ensures Updated(m, Parse([w, k])) == m
    ensures Respond(m, [w, k], checkpoint) == if k in m then Ascii("VALUE ") + m[k] + [13, 10] else Line("NOT_FOUND")
  {
    hide Spells, ToUpper, Ascii;
    WordsFolded(w);
    OtherWords();
    assert [w, k][1..] == [k];
  }

  /** A pair of a SCAN answer: a blank, the key, an equals sign and the value. */
  function OnePair(p: (Bytes, Bytes)): Bytes { [32] + p.0 + [61] + p.1 }

  function Rendered(pairs: Pairs): Bytes {
    if pairs == [] then [] else OnePair(pairs[0]) + Rendered(pairs[1..])
  }

  lemma {:induction false} RenderedSnoc(pairs: Pairs, p: (Bytes, Bytes))
    ensures Rendered(pairs + [p]) == Rendered(pairs) + OnePair(p)
    decreases |pairs|
  {
    hide OnePair;
    if pairs == [] {
      assert [p][1..] == [] && Rendered([]) == [] && OnePair(p) + [] == OnePair(p);
    } else {
      RenderedSnoc(pairs[1..], p);
      assert (pairs + [p])[1..] == pairs[1..] + [p];
    }
  }

  lemma {:induction false} TextRendered(pairs: Pairs)
    ensures PairsText(pairs) == Rendered(pairs)
    decreases |pairs|
  {
    if pairs != [] {
      var before, last := pairs[..|pairs| - 1], pairs[|pairs| - 1];
      TextRendered(before);
      RenderedSnoc(before, last);
      assert pairs == before + [last];
      assert Ascii(" ") == [32] && Ascii("=") == [61];
    }
  }

  /** SCAN leaves the map alone and answers, in ascending order, exactly the pairs whose keys are
      not below its first argument and not above its second. */
  lemma ScanLaw(m: Contents, w: Bytes, a: Bytes, b: Bytes, checkpoint: CheckpointResult) returns (pairs: Pairs)
    requires Spells(w, "SCAN")
    ensures Updated(m, Parse([w, a, b])) == m
    ensures Respond(m, [w, a, b], checkpoint) == Ascii("RESULT ") + Decimal(|pairs|) + Rendered(pairs) + [13, 10]
    ensures forall i, j :: 0 <= i < j < |pairs| ==> LexLess(pairs[i].0, pairs[j].0)
    ensures forall k, v :: (k, v) in pairs <==> k in m && m[k] == v && !LexLess(k, a) && !LexLess(b, k)
  {
    LexOrder();
    pairs := Listing(LexLess, Range(LexLess, m, a, b));
    hide *;
    ScanContent(m, a, b, pairs);
    TextRendered(pairs);
    ScanAnswer(m, w, a, b, pairs, checkpoint);
  }

  lemma ScanContent(m: Contents, a: Bytes, b: Bytes, pairs: Pairs)
    requires Lists(LexLess, Range(LexLess, m, a, b), pairs)
    ensures forall i, j :: 0 <= i < j < |pairs| ==> LexLess(pairs[i].0, pairs[j].0)
    ensures forall k, v :: (k, v) in pairs <==> k in m && m[k] == v && !LexLess(k, a) && !LexLess(b, k)
  {
    hide LexLess;
    var range := Range(LexLess, m, a, b);
    forall k, v ensures (k, v) in pairs <==> k in range && range[k] == v { Listed(range, pairs, k, v); }
  }

  lemma ScanAnswer(m: Contents, w: Bytes, a: Bytes, b: Bytes, pairs: Pairs, checkpoint: CheckpointResult)
    requires Spells(w, "SCAN") && Lists(LexLess, Range(LexLess, m, a, b), pairs)
    ensures Updated(m, Parse([w, a, b])) == m
    ensures Respond(m, [w, a, b], checkpoint) == Ascii("RESULT ") + Decimal(|pairs|) + PairsText(pairs) + [13, 10]
  {
    LexOrder();
    hide Spells, ToUpper, Ascii, LexLess, Lists, PairsText, Listing, Decimal, Range, StrictTotalOrder;
    var range := Range(LexLess, m, a, b);
    ListsUnique(LexLess, range, pairs, Listing(LexLess, range));
    WordsFolded(w);
    OtherWords();
    assert [w, a, b][1..] == [a, b];
  }

  lemma Listed(m: Contents, pairs: Pairs, k: Bytes, v: Bytes)
    requires Lists(LexLess, m, pairs)
    ensures (k, v) in pairs <==> k in m && m[k] == v
  {
    hide LexLess;
    if k in m && m[k] == v {
      var i :| 0 <= i < |pairs| && pairs[i].0 == k;
      assert pairs[i] == (k, v);
    }
  }

  /** CHECKPOINT leaves the map alone and answers that it is done unless there is no log or the
      disk refuses to open, write or rename the snapshot or to reset the log. */
  lemma CheckpointLaw(m: Contents, w: Bytes, walEnabled: bool, disk: DiskAnswers)
    requires Spells(w, "CHECKPOINT")
    ensures Updated(m, Parse([w])) == m
    ensures Respond(m, [w], CheckpointOutcome(walEnabled, disk)) ==
            Line(if !walEnabled then "ERROR checkpoint unavailable"
                 else if disk.canOpen && disk.canWrite && disk.canRename && disk.canReset then "OK CHECKPOINT"
                 else "ERROR checkpoint failed")
  {
    hide Spells, ToUpper, Ascii;
    WordsFolded(w);
    OtherWords();
    assert [w][1..] == [];
  }

  /** PING and QUIT leave the map alone. */
  lemma PlainLaws(m: Contents, w: Bytes, checkpoint: CheckpointResult)
    ensures Spells(w, "PING") ==> Updated(m, Parse([w])) == m && Respond(m, [w], checkpoint) == Line("PONG")
    ensures Spells(w, "QUIT") ==> Updated(m, Parse([w])) == m && Respond(m, [w], checkpoint) == Line("BYE")
  {
    hide Spells, ToUpper, Ascii;
    WordsFolded(w);
    OtherWords();
    assert [w][1..] == [];
  }

  /** The server hangs up after exactly the requests whose word is QUIT, whatever follows it. */
  lemma QuitLaw(tokens: Request)
    ensures IsQuit(tokens) <==> tokens != [] && Spells(tokens[0], "QUIT")
  {
    hide Spells, ToUpper, Ascii;
    if tokens != [] { WordsFolded(tokens[0]); }
  }

  /** How many arguments a word takes. */
  predicate Arity(w: Bytes, n: nat) {
    || (n == 0 && (Spells(w, "PING") || Spells(w, "QUIT") || Spells(w, "CHECKPOINT")))
    || (n == 1 && (Spells(w, "GET") || Spells(w, "DEL")))
    || (n == 2 && (Spells(w, "SCAN") || Spells(w, "PUT")))
  }

  ghost predicate Refused(m: Contents, tokens: Request, usage: string, checkpoint: CheckpointResult) {
    Respond(m, tokens, checkpoint) == Ascii("ERROR usage: ") + Line(usage) && Updated(m, Parse(tokens)) == m
  }

  /** A wrong number of arguments, or a PUT with an empty key or value, changes nothing. */
  lemma UsageLaws(m: Contents, w: Bytes, args: Request, checkpoint: CheckpointResult)
    ensures Spells(w, "PING") && |args| != 0 ==> Refused(m, [w] + args, "PING", checkpoint)
    ensures Spells(w, "GET") && |args| != 1 ==> Refused(m, [w] + args, "GET <key>", checkpoint)
    ensures Spells(w, "DEL") && |args| != 1 ==> Refused(m, [w] + args, "DEL <key>", checkpoint)
    ensures Spells(w, "SCAN") && |args| != 2 ==> Refused(m, [w] + args, "SCAN <start> <end>", checkpoint)
    ensures Spells(w, "QUIT") && |args| != 0 ==> Refused(m, [w] + args, "QUIT", checkpoint)
    ensures Spells(w, "CHECKPOINT") && |args| != 0 ==> Refused(m, [w] + args, "CHECKPOINT", checkpoint)
    ensures Spells(w, "PUT") && (|args| != 2 || args[0] == [] || args[1] == []) ==>
              Refused(m, [w] + args, "PUT <key> <value>", checkpoint)
  {
    hide Spells, ToUpper, Ascii, Refused;
    WordsFolded(w);
    OtherWords();
    var tokens := [w] + args;
    assert tokens[0] == w && tokens[1..] == args;
    forall usage | Parse(tokens) == Usage(usage) ensures Refused(m, tokens, usage, checkpoint) {
      MisusedLaw(m, tokens, usage, checkpoint);
    }
  }

  lemma MisusedLaw(m: Contents, tokens: Request, usage: string, checkpoint: CheckpointResult)
    requires Parse(tokens) == Usage(usage)
    ensures Refused(m, tokens, usage, checkpoint)
  {
    hide Parse, Ascii;
    assert Ascii("ERROR usage: ") + Ascii(usage) + CRLF == Ascii("ERROR usage: ") + Line(usage);
  }

  /** So does an empty request, and a word that is none of the seven. */
  lemma UnknownLaws(m: Contents, w: Bytes, args: Request, checkpoint: CheckpointResult)
    ensures Respond(m, [], checkpoint) == Line("ERROR empty command") && Updated(m, Parse([])) == m
    ensures !Spells(w, "PING") && !Spells(w, "GET") && !Spells(w, "DEL") && !Spells(w, "SCAN")
            && !Spells(w, "QUIT") && !Spells(w, "CHECKPOINT") && !Spells(w, "PUT") ==>
              Respond(m, [w] + args, checkpoint) == Line("ERROR unknown command") && Updated(m, Parse([w] + args)) == m
  {
    hide Spells, ToUpper, Ascii;
    WordsFolded(w);
    assert ([w] + args)[0] == w;
  }
}
