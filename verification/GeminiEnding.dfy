/** Why a Gemini answer is said to have ended, on the words of its frames alone. */
module GeminiEnding {
  import opened Bytes
  import opened Finite
  import opened TokenUsage
  import opened Hub
  import opened JsonTree
  import opened Accumulator
  import opened GeminiStream
  import opened GeminiRoundTrip

  predicate Finishes(frame: Frame) {
    && frame.Chunk? && frame.candidate.Some?
    && frame.candidate.value.finish.Some? && !frame.candidate.value.finish.value.Empty()
  }

  /** Some part of the frame is a call. */
  predicate Calls(frame: Frame) {
    && frame.Chunk? && frame.candidate.Some?
    && exists k :: 0 <= k < |frame.candidate.value.parts| && frame.candidate.value.parts[k].call.Some?
  }

  predicate AnyCall(frames: seq<Frame>) { exists k :: 0 <= k < |frames| && Calls(frames[k]) }

  lemma CallMore(frames: seq<Frame>, frame: Frame)
    ensures AnyCall(frames + [frame]) <==> AnyCall(frames) || Calls(frame)
  {
    var more := frames + [frame];
    assert forall k :: 0 <= k < |frames| ==> more[k] == frames[k];
    assert more[|frames|] == frame;
  }

  lemma {:induction false} CountIs(parts: seq<Part>)
    ensures CallCount(parts) > 0 <==> exists k :: 0 <= k < |parts| && parts[k].call.Some?
  {
    if parts != [] {
      CountIs(parts[1..]);
      if k :| 0 <= k < |parts[1..]| && parts[1..][k].call.Some? {
        assert parts[k + 1].call.Some?;
      }
      if k :| 0 <= k < |parts| && parts[k].call.Some? {
        assert k > 0 ==> parts[1..][k - 1].call.Some?;
      }
    }
  }

  function FrameParts(frame: Frame): seq<Part> {
    if frame.Chunk? && frame.candidate.Some? then frame.candidate.value.parts else []
  }

  lemma OnePartOpens(codec: Codec, b: Answer, part: Part, ordinal: nat)
    ensures |ReadFrom(b, PartEvents(codec, part, ordinal)).calls| == |b.calls| + CallsIn(part)
  {
    var prose, call := ProseEvents(part), if part.call.Some? then CallEvents(codec, part.call.value, ordinal) else [];
    ReadConcat(b, prose, call);
    if prose != [] {
      assert prose == [prose[0]];
      ReadOne(b, prose[0]);
    }
    if part.call.Some? {
      var id := CallId(part.call.value.name, ordinal);
      WholeCallReads(ReadFrom(b, prose), id, part.call.value.name, codec.print_(part.call.value.args));
    }
  }

  lemma {:induction false} PartsOpen(codec: Codec, b: Answer, parts: seq<Part>, prior: nat)
    ensures |ReadFrom(b, PartsEvents(codec, parts, prior)).calls| == |b.calls| + CallCount(parts)
    decreases |parts|
  {
    if parts != [] {
      var first, rest := PartEvents(codec, parts[0], prior), PartsEvents(codec, parts[1..], prior + CallsIn(parts[0]));
      ReadConcat(b, first, rest);
      OnePartOpens(codec, b, parts[0], prior);
      PartsOpen(codec, ReadFrom(b, first), parts[1..], prior + CallsIn(parts[0]));
    }
  }

  lemma UsageAlone(b: Answer, usage: Option<PromptUsage>)
    ensures var u := ReadFrom(b, UsageEvents(usage)); u.calls == b.calls && u.ending == b.ending
  {
    if usage.Some? {
      ReadOne(b, UsageUpdate(ReadPromptUsage(usage.value)));
    }
  }

  lemma FinishAlone(b: Answer, finish: Option<Finish>, called: bool, usage: Option<PromptUsage>)
    ensures var c := ReadFrom(b, FinishEvents(finish, called, usage));
            && c.calls == b.calls
            && (b.ending.Some? || finish.None? || finish.value.Empty() ==> c.ending == b.ending)
            && (b.ending.None? && finish.Some? && !finish.value.Empty() ==>
                  c.ending.Some? && c.ending.value.reason == FinishReason(finish.value, called))
  {
    if finish.Some? && !finish.value.Empty() {
      ReadOne(b, FinishEvents(finish, called, usage)[0]);
    }
  }

  /** What any frame adds: its calls, and an ending if it finishes. */
  lemma FrameAdds(codec: Codec, b: Answer, frame: Frame)
    ensures var c := ReadFrom(b, Parsed(codec, frame, |b.calls|));
            && |c.calls| == |b.calls| + CallCount(FrameParts(frame))
            && (b.ending.Some? || !Finishes(frame) ==> c.ending == b.ending)
            && (b.ending.None? && Finishes(frame) ==>
                  c.ending.Some? && c.ending.value.reason ==
                                    FinishReason(frame.candidate.value.finish.value, |c.calls| > 0))
  {
    if frame.Chunk? {
      UsageAlone(b, frame.usage);
      if frame.candidate.Some? {
        var c, u := frame.candidate.value, UsageEvents(frame.usage);
        var parts := PartsEvents(codec, c.parts, |b.calls|);
        var finish := FinishEvents(c.finish, |b.calls| + CallCount(c.parts) > 0, frame.usage);
        ReadConcat(b, u, parts);
        ReadConcat(b, u + parts, finish);
        PartsOpen(codec, ReadFrom(b, u), c.parts, |b.calls|);
        PartsReportNothing(codec, c.parts, |b.calls|);
        UnreportedRun(ReadFrom(b, u), parts);
        FinishAlone(ReadFrom(b, u + parts), c.finish, |b.calls| + CallCount(c.parts) > 0, frame.usage);
      }
    }
  }

  lemma ReadSnoc(codec: Codec, frames: seq<Frame>, frame: Frame)
    ensures ReadFrames(codec, frames + [frame]) ==
            ReadFrom(ReadFrames(codec, frames), Parsed(codec, frame, |ReadFrames(codec, frames).calls|))
  {
    ReadFramesAppend(codec, frames, [frame]);
  }

  lemma {:induction false} CalledIs(codec: Codec, frames: seq<Frame>)
    ensures ReadFrames(codec, frames).calls != [] <==> AnyCall(frames)
  {
    if frames != [] {
      var init, frame := frames[..|frames| - 1], frames[|frames| - 1];
      assert init + [frame] == frames;
      CalledIs(codec, init);
      ReadSnoc(codec, init, frame);
      FrameAdds(codec, ReadFrames(codec, init), frame);
      CountIs(FrameParts(frame));
      CallMore(init, frame);
    }
  }

  lemma {:induction false} NoEndingYet(codec: Codec, frames: seq<Frame>)
    requires forall k :: 0 <= k < |frames| ==> !Finishes(frames[k])
    ensures ReadFrames(codec, frames).ending.None?
  {
    if frames != [] {
      var init, frame := frames[..|frames| - 1], frames[|frames| - 1];
      assert init + [frame] == frames;
      NoEndingYet(codec, init);
      ReadSnoc(codec, init, frame);
      FrameAdds(codec, ReadFrames(codec, init), frame);
    }
  }

  lemma {:induction false} EndingIsKept(codec: Codec, before: seq<Frame>, after: seq<Frame>)
    requires ReadFrames(codec, before).ending.Some?
    ensures ReadFrames(codec, before + after).ending == ReadFrames(codec, before).ending
    decreases |after|
  {
    if after == [] {
      assert before + after == before;
    } else {
      var init, last := before + after[..|after| - 1], after[|after| - 1];
      OneMore(before, after, |after| - 1);
      EndingIsKept(codec, before, after[..|after| - 1]);
      ReadSnoc(codec, init, last);
      EndingStands(ReadFrames(codec, init), Parsed(codec, last, |ReadFrames(codec, init).calls|));
    }
  }

  /** A word for content the provider would not give. */
  predicate Blocked(word: Finish) { word.Safety? || word.ProhibitedContent? || word.Blocklist? }

  ghost predicate ReasonFits(reason: StopReason, word: Finish, called: bool) {
    && (reason == MaxTokens <==> word.MaxTokensWord?)
    && (reason == StopReason.Refusal <==> Blocked(word))
    && (reason == StopReason.ToolUse <==> !word.MaxTokensWord? && !Blocked(word) && called)
    && (reason == EndTurn <==> !word.MaxTokensWord? && !Blocked(word) && !called)
  }

  lemma WordsDecide(word: Finish, called: bool)
    ensures ReasonFits(FinishReason(word, called), word, called)
  {
  }

  lemma EndsAtFinish(codec: Codec, before: seq<Frame>, finish: Frame)
    requires Finishes(finish) && forall k :: 0 <= k < |before| ==> !Finishes(before[k])
    ensures var ending := ReadFrames(codec, before + [finish]).ending;
            ending.Some? && ReasonFits(ending.value.reason, finish.candidate.value.finish.value, AnyCall(before + [finish]))
  {
    NoEndingYet(codec, before);
    ReadSnoc(codec, before, finish);
    FrameAdds(codec, ReadFrames(codec, before), finish);
    CalledIs(codec, before + [finish]);
    WordsDecide(finish.candidate.value.finish.value, ReadFrames(codec, before + [finish]).calls != []);
  }

  /** For every frame sequence with a first finish: the answer ended for truncation exactly on its word, as
      a refusal exactly on one of three, and on any other word for a call exactly when some frame up to
      that one carries a call. */
  lemma EndingOnWords(codec: Codec, before: seq<Frame>, finish: Frame, after: seq<Frame>)
    requires Finishes(finish) && forall k :: 0 <= k < |before| ==> !Finishes(before[k])
    ensures var ending := Read(RelayFrames(codec, before + [finish] + after).events).ending;
            ending.Some? && ReasonFits(ending.value.reason, finish.candidate.value.finish.value, AnyCall(before + [finish]))
  {
    RelayReads(codec, before + [finish] + after);
    EndsAtFinish(codec, before, finish);
    EndingIsKept(codec, before + [finish], after);
  }
}
