/** Printing the simulator's messages and matching them again: every receiver is found under its own name. */
module ProgressMessages {
  import opened Wrappers
  import opened Progress
  import Decimal

  lemma NotPrefix(s: string, prefix: string, i: nat)
    requires i < |s| && i < |prefix| && s[i] != prefix[i]
    ensures !StartsWith(s, prefix)
  {
  }

  /** The completion message of a receiver is matched to that receiver, whatever its name. */
  lemma FinalizedMatchesBack(name: string)
    ensures MatchMessage(FINALIZED + name) == ReceiverMatch(Streaming, name, "streaming-finalized")
  {
    hide ExportChunk;
    var s := FINALIZED + name;
    assert s[0] == 'F' && s[7] == 'e';
    NotPrefix(s, "Simulating", 0);
    NotPrefix(s, "Initializing", 0);
    NotPrefix(s, "Main simulation finished", 0);
    assert "Simulation complete"[0] != s[0];
    NotPrefix(s, FINALIZING_CW, 7);
    NotPrefix(s, FINALIZING_FMCW, 7);
    NotPrefix(s, RENDERING, 0);
    NotPrefix(s, APPLYING, 0);
    NotPrefix(s, WRITING, 0);
    assert After(s, FINALIZED) == name;
  }

  lemma NoExportChunk(s: string)
    requires s != "" && s[0] != 'E'
    ensures ExportChunk(s) == None
  {
    var head := s[..|s| - TrailingDigits(s)];
    if head != "" {
      assert head[0] == s[0] && EXPORTING[0] == 'E';
      NotPrefix(head, EXPORTING, 0);
    }
  }

  lemma FinishedExportingMatchesBack(name: string)
    ensures MatchMessage(FINISHED_EXPORTING + name) == ReceiverMatch(Export, name, "export-finished")
  {
    var s := FINISHED_EXPORTING + name;
    assert s[0] == 'F' && s[3] == 'i';
    NoExportChunk(s);
    hide ExportChunk;
    NotPrefix(s, "Simulating", 0);
    NotPrefix(s, "Initializing", 0);
    NotPrefix(s, "Main simulation finished", 0);
    assert "Simulation complete"[0] != s[0];
    NotPrefix(s, FINALIZING_CW, 3);
    NotPrefix(s, FINALIZING_FMCW, 3);
    NotPrefix(s, RENDERING, 0);
    NotPrefix(s, APPLYING, 0);
    NotPrefix(s, WRITING, 0);
    NotPrefix(s, FINALIZED, 3);
    assert After(s, FINISHED_EXPORTING) == name;
  }

  lemma CompleteMatchesMain()
    ensures MatchMessage("Simulation complete") == Match(Main, "main", "", "main-complete")
  {
    hide ExportChunk;
    var s := "Simulation complete";
    assert s[7] == 'i' && "Simulating"[7] == 'i' && s[8] == 'o' && "Simulating"[8] == 'n';
    NotPrefix(s, "Simulating", 8);
    NotPrefix(s, "Initializing", 0);
    NotPrefix(s, "Main simulation finished", 0);
  }

  /** The messages about the whole simulation belong to the main step, each with its detail. */
  lemma MainMessages(rest: string)
    ensures MatchMessage("Simulating" + rest) == Match(Main, "main", "", "main-progress")
    ensures MatchMessage("Initializing" + rest) == Match(Main, "main", "", "main-progress")
    ensures MatchMessage("Main simulation finished" + rest) == Match(Main, "main", "", "main-export-wait")
    ensures MatchMessage("Simulation complete") == Match(Main, "main", "", "main-complete")
  {
    hide ExportChunk;
    CompleteMatchesMain();
    var s := "Main simulation finished" + rest;
    assert s[0] == 'M';
    NotPrefix(s, "Simulating", 0);
    NotPrefix(s, "Initializing", 0);
  }

  /** And no other message does. */
  lemma OnlyMainMessages(m: string)
    ensures MatchMessage(m).kind == Main
            <==> "Simulating" <= m || "Initializing" <= m || "Main simulation finished" <= m
                 || m == "Simulation complete"
  {
    hide ExportChunk;
  }

  // ---------- the messages of a receiver's work ----------

  /** No message that starts with another letter is one of the main step. */
  lemma NotMain(s: string)
    requires s != "" && s[0] !in {'S', 'I', 'M'}
    ensures !StartsWith(s, "Simulating") && !StartsWith(s, "Initializing") && !StartsWith(s, "Main simulation finished")
    ensures s != "Simulation complete"
  {
    NotPrefix(s, "Simulating", 0);
    NotPrefix(s, "Initializing", 0);
    NotPrefix(s, "Main simulation finished", 0);
    assert "Simulation complete"[0] == 'S';
  }

  lemma FinalizingMatchesBack(name: string)
    ensures MatchMessage(FINALIZING_CW + name) == ReceiverMatch(Streaming, name, "streaming-finalizing")
    ensures MatchMessage(FINALIZING_FMCW + name) == ReceiverMatch(Streaming, name, "streaming-finalizing")
  {
    hide ExportChunk;
    var s, t := FINALIZING_CW + name, FINALIZING_FMCW + name;
    NotMain(s);
    NotMain(t);
    NotPrefix(t, FINALIZING_CW, 11);
    assert After(s, FINALIZING_CW) == name && After(t, FINALIZING_FMCW) == name;
  }

  lemma RenderingMatchesBack(name: string)
    ensures MatchMessage(RENDERING + name) == ReceiverMatch(Streaming, name, "streaming-rendering-interference")
  {
    hide ExportChunk;
    var s := RENDERING + name;
    NotMain(s);
    NotPrefix(s, FINALIZING_CW, 0);
    NotPrefix(s, FINALIZING_FMCW, 0);
    assert After(s, RENDERING) == name;
  }

  lemma ApplyingMatchesBack(name: string)
    ensures MatchMessage(APPLYING + name) == ReceiverMatch(Streaming, name, "streaming-applying-noise")
  {
    hide ExportChunk;
    var s := APPLYING + name;
    NotMain(s);
    NotPrefix(s, FINALIZING_CW, 0);
    NotPrefix(s, FINALIZING_FMCW, 0);
    NotPrefix(s, RENDERING, 0);
    assert After(s, APPLYING) == name;
  }

  lemma WritingMatchesBack(name: string)
    ensures MatchMessage(WRITING + name) == ReceiverMatch(Streaming, name, "streaming-writing-hdf5")
  {
    hide ExportChunk;
    var s := WRITING + name;
    NotMain(s);
    NotPrefix(s, FINALIZING_CW, 0);
    NotPrefix(s, FINALIZING_FMCW, 0);
    NotPrefix(s, RENDERING, 0);
    NotPrefix(s, APPLYING, 0);
    assert After(s, WRITING) == name;
  }

  /** Whatever a receiver is called, each message about its streaming or its export is matched to that receiver and
      to the detail the message is about. */
  lemma ReceiverMessagesMatchBack(name: string)
    ensures forall id :: ReceiverMatch(Streaming, name, id) == Match(Streaming, "receiver:" + name, name, id)
    ensures MatchMessage("Finalizing CW Receiver " + name) == ReceiverMatch(Streaming, name, "streaming-finalizing")
    ensures MatchMessage("Finalizing FMCW Receiver " + name) == ReceiverMatch(Streaming, name, "streaming-finalizing")
    ensures MatchMessage("Rendering Interference for " + name)
            == ReceiverMatch(Streaming, name, "streaming-rendering-interference")
    ensures MatchMessage("Applying Noise for " + name) == ReceiverMatch(Streaming, name, "streaming-applying-noise")
    ensures MatchMessage("Writing HDF5 for " + name) == ReceiverMatch(Streaming, name, "streaming-writing-hdf5")
    ensures MatchMessage("Finalized " + name) == ReceiverMatch(Streaming, name, "streaming-finalized")
    ensures MatchMessage("Finished Exporting " + name) == Match(Export, "receiver:" + name, name, "export-finished")
  {
    hide MatchMessage;
    FinalizingMatchesBack(name);
    RenderingMatchesBack(name);
    ApplyingMatchesBack(name);
    WritingMatchesBack(name);
    FinalizedMatchesBack(name);
    FinishedExportingMatchesBack(name);
  }

  // ---------- chunks of an export ----------

  lemma {:induction false} TrailingDigitsOf(a: string, digits: string)
    requires Decimal.AllDigits(digits) && (a != "" ==> !Decimal.IsDigit(a[|a| - 1]))
    ensures TrailingDigits(a + digits) == |digits|
  {
    if digits == "" {
      assert a + digits == a;
    } else {
      var init := digits[..|digits| - 1];
      assert (a + digits)[..|a + digits| - 1] == a + init;
      TrailingDigitsOf(a, init);
    }
  }

  function ChunkHead(name: string): string {
    EXPORTING + name + CHUNK
  }

  ghost predicate OnOneLine(name: string) {
    forall i :: 0 <= i < |name| ==> !IsLineTerminator(name[i])
  }

  lemma ChunkName(name: string)
    ensures var head := ChunkHead(name);
            && StartsWith(head, EXPORTING) && head[|head| - |CHUNK|..] == CHUNK
            && |head| - |CHUNK| >= |EXPORTING| && head[|EXPORTING|..|head| - |CHUNK|] == name
            && !Decimal.IsDigit(head[|head| - 1])
  {
  }

  lemma ExportChunkOf(name: string, digits: string)
    requires digits != "" && Decimal.AllDigits(digits)
    ensures ExportChunk(ChunkHead(name) + digits) == if name != "" && OnOneLine(name) then Some(name) else None
  {
    var head := ChunkHead(name);
    var s := head + digits;
    ChunkName(name);
    hide ChunkHead;
    TrailingDigitsOf(head, digits);
    assert s[..|s| - |digits|] == head;
  }

  /** The message of an export's chunk is matched to its receiver if and only if the name is not empty and stays on
      one line; the step of any other name is the message itself. */
  lemma ExportChunkMatchesBack(name: string, digits: string)
    requires digits != "" && Decimal.AllDigits(digits)
    ensures var m := "Exporting " + name + ": Chunk " + digits;
            MatchMessage(m)
            == if name != "" && OnOneLine(name) then Match(Export, "receiver:" + name, name, "export-chunk")
               else Match(Unknown, m, "", m)
  {
    var s := ChunkHead(name) + digits;
    ExportChunkOf(name, digits);
    assert s[0] == EXPORTING[0] == 'E';
    hide ExportChunk, ChunkHead;
    NotMain(s);
    NotPrefix(s, FINALIZING_CW, 0);
    NotPrefix(s, FINALIZING_FMCW, 0);
    NotPrefix(s, RENDERING, 0);
    NotPrefix(s, APPLYING, 0);
    NotPrefix(s, WRITING, 0);
    NotPrefix(s, FINALIZED, 0);
    NotPrefix(s, FINISHED_EXPORTING, 0);
  }

  lemma {:induction false} DigitsAtEnd(s: string)
    ensures Decimal.AllDigits(s[|s| - TrailingDigits(s)..])
  {
    if s != "" && Decimal.IsDigit(s[|s| - 1]) {
      var init := s[..|s| - 1];
      DigitsAtEnd(init);
      assert s[|s| - TrailingDigits(s)..] == init[|init| - TrailingDigits(init)..] + [s[|s| - 1]];
    }
  }

  /** Only chunk messages are read as one. */
  lemma ExportChunkIs(s: string) returns (digits: string)
    requires ExportChunk(s).Some?
    ensures digits != "" && Decimal.AllDigits(digits)
    ensures s == ChunkHead(ExportChunk(s).value) + digits
  {
    var n := TrailingDigits(s);
    DigitsAtEnd(s);
    var head := s[..|s| - n];
    digits := s[|s| - n..];
    assert s == head + digits;
    assert head == EXPORTING + ExportChunk(s).value + CHUNK;
  }

  const PREFIXES: seq<string> := [
    "Simulating", "Initializing", "Main simulation finished", "Finalizing CW Receiver ", "Finalizing FMCW Receiver ",
    "Rendering Interference for ", "Applying Noise for ", "Writing HDF5 for ", "Finalized ", "Finished Exporting "]

  ghost predicate Chunk(name: string, digits: string) {
    digits != "" && Decimal.AllDigits(digits) && name != "" && OnOneLine(name)
  }

  /** A message is unknown exactly when it is of none of these forms; its step is then the message itself. */
  lemma UnknownIff(m: string)
    ensures MatchMessage(m).kind == Unknown
            <==> && (forall k :: 0 <= k < |PREFIXES| ==> !(PREFIXES[k] <= m)) && m != "Simulation complete"
                 && forall name, digits :: Chunk(name, digits) ==> m != "Exporting " + name + ": Chunk " + digits
    ensures MatchMessage(m).kind == Unknown ==> MatchMessage(m) == Match(Unknown, m, "", m)
  {
    if ExportChunk(m).Some? {
      var digits := ExportChunkIs(m);
      ExportChunkOf(ExportChunk(m).value, digits);
      assert Chunk(ExportChunk(m).value, digits);
    }
    forall name, digits | Chunk(name, digits) && m == "Exporting " + name + ": Chunk " + digits
      ensures ExportChunk(m).Some?
    {
      ExportChunkOf(name, digits);
    }
    KnownPrefixes(m);
    hide ExportChunk, Chunk;
  }

  lemma KnownPrefixes(m: string)
    ensures (forall k :: 0 <= k < |PREFIXES| ==> !(PREFIXES[k] <= m))
            <==> && !StartsWith(m, "Simulating") && !StartsWith(m, "Initializing")
                 && !StartsWith(m, "Main simulation finished")
                 && !StartsWith(m, FINALIZING_CW) && !StartsWith(m, FINALIZING_FMCW) && !StartsWith(m, RENDERING)
                 && !StartsWith(m, APPLYING) && !StartsWith(m, WRITING) && !StartsWith(m, FINALIZED)
                 && !StartsWith(m, FINISHED_EXPORTING)
  {
    assert PREFIXES[0] == "Simulating" && PREFIXES[1] == "Initializing" && PREFIXES[2] == "Main simulation finished";
    assert PREFIXES[3] == FINALIZING_CW && PREFIXES[4] == FINALIZING_FMCW && PREFIXES[5] == RENDERING;
    assert PREFIXES[6] == APPLYING && PREFIXES[7] == WRITING && PREFIXES[8] == FINALIZED;
    assert PREFIXES[9] == FINISHED_EXPORTING;
  }

  /** The first chunk of a receiver without a name is a step of its own. */
  lemma NamelessChunk()
    ensures MatchMessage("Exporting " + "" + ": Chunk " + "1").kind == Unknown
  {
    hide MatchMessage, ChunkHead;
    ExportChunkMatchesBack("", "1");
  }
}
