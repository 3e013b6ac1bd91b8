/** Splitting a model's streamed reply into the answer and the "thinking"
    text between `<think>` and `</think>`, one chunk at a time. The state is
    the answer built so far, the stack of thinking pieces and whether the
    stream is inside a thinking block. Both view models follow these rules:
    one in `processMessageChunk`, the other inline in its collector. */
module Segmentation {
  import opened Text

  const OpenMarker: string := "<think>"
  const CloseMarker: string := "</think>"

  /** What a step asks the screen to show: the answer so far, the thinking
      text so far, or no thinking indicator. */
  datatype Update = AnswerShown(answer: string) | ThinkingShown(thinking: string) | ThinkingHidden

  /** `responseBuilder`, `thinkingStack` and `isInThinkingBlock`. */
  datatype Segmenter = Segmenter(answer: string, stack: seq<string>, inThinking: bool)

  const Initial: Segmenter := Segmenter("", [], false)

  /** The state after a chunk and the updates it caused, in order. */
  datatype Outcome = Outcome(next: Segmenter, updates: seq<Update>)

  /** A chunk without either marker. */
  predicate MarkerFree(chunk: string)
  {
    !Contains(chunk, OpenMarker) && !Contains(chunk, CloseMarker)
  }

  /** One chunk. The branches are tried in order: a chunk with `<think>`, a
      chunk with `</think>`, a chunk inside a thinking block, any other
      chunk. */
  function Step(s: Segmenter, chunk: string): (o: Outcome)
  {
    if Contains(chunk, OpenMarker) then OnOpen(s, chunk)
    else if Contains(chunk, CloseMarker) then OnClose(s, chunk)
    else if s.inThinking then
      var stack := s.stack + [chunk];
      Outcome(Segmenter(s.answer, stack, true), [ThinkingShown(Concat(stack))])
    else
      var answer := s.answer + chunk;
      Outcome(Segmenter(answer, s.stack, false), [AnswerShown(answer)])
  }

  /** A chunk with `<think>`. */
  function OnOpen(s: Segmenter, chunk: string): (o: Outcome)
  {
    var before := SubstringBefore(chunk, OpenMarker);
    var answer := if IsBlank(before) then s.answer else s.answer + before;
    var shown := if IsBlank(before) then [] else [AnswerShown(answer)];
    if Contains(chunk, CloseMarker) then
      Outcome(Segmenter(answer, s.stack, true), shown)
    else
      var stack := s.stack + [SubstringAfter(chunk, OpenMarker)];
      Outcome(Segmenter(answer, stack, true), shown + [ThinkingShown(Concat(stack))])
  }

  /** A chunk with `</think>` and no `<think>`. */
  function OnClose(s: Segmenter, chunk: string): (o: Outcome)
  {
    var thought := SubstringBefore(chunk, CloseMarker);
    var after := SubstringAfter(chunk, CloseMarker);
    var answer := if IsBlank(after) then s.answer else s.answer + after;
    var thoughtShown := if IsBlank(thought) then [] else [ThinkingShown(Concat(s.stack + [thought]))];
    var answerShown := if IsBlank(after) then [] else [AnswerShown(answer)];
    Outcome(Segmenter(answer, [], false), thoughtShown + [ThinkingHidden] + answerShown)
  }

  /** A chunk without markers goes verbatim to the answer outside a
      thinking block and onto the stack inside one; the flag stays. */
  lemma StepMarkerFree(s: Segmenter, chunk: string)
    requires MarkerFree(chunk)
    ensures var n := Step(s, chunk).next;
      && n.inThinking == s.inThinking
      && (s.inThinking ==> n.answer == s.answer && n.stack == s.stack + [chunk])
      && (!s.inThinking ==> n.answer == s.answer + chunk && n.stack == s.stack)
  {
  }

  /** A chunk with `<think>` turns the flag on, adds the text before the
      marker to the answer only when it is not blank, and pushes the text
      after the marker exactly when the chunk has no `</think>`. */
  lemma StepOpen(s: Segmenter, chunk: string)
    requires Contains(chunk, OpenMarker)
    ensures var n := Step(s, chunk).next;
      var before := SubstringBefore(chunk, OpenMarker);
      && n.inThinking
      && n.answer == (if IsBlank(before) then s.answer else s.answer + before)
      && (Contains(chunk, CloseMarker) ==> n.stack == s.stack)
      && (!Contains(chunk, CloseMarker) ==> n.stack == s.stack + [SubstringAfter(chunk, OpenMarker)])
  {
  }

  /** A chunk with `</think>` and no `<think>` turns the flag off, empties
      the stack, and adds the text after the marker to the answer only when
      it is not blank; the indicator is hidden. */
  lemma StepClose(s: Segmenter, chunk: string)
    requires !Contains(chunk, OpenMarker) && Contains(chunk, CloseMarker)
    ensures var o := Step(s, chunk);
      var after := SubstringAfter(chunk, CloseMarker);
      && !o.next.inThinking && o.next.stack == []
      && o.next.answer == (if IsBlank(after) then s.answer else s.answer + after)
      && ThinkingHidden in o.updates
  {
  }

  /** `<think>x</think>` in one chunk leaves the flag on and pushes nothing. */
  lemma BothMarkersStayThinking(s: Segmenter)
    ensures Step(s, "<think>x</think>").next == Segmenter(s.answer, s.stack, true)
  {
    var c := "<think>x</think>";
    assert OccursAt(c, OpenMarker, 0);
    assert OccursAt(c, CloseMarker, 8);
    assert SubstringBefore(c, OpenMarker) == "";
  }

  /** A marker split over two chunks is not recognised: both halves go to
      the answer. */
  lemma SplitMarkerNotRecognised()
    ensures Step(Step(Initial, "<thi").next, "nk>").next.answer == "<think>"
  {
    assert !OccursAt("<thi", OpenMarker, 0);
    assert !OccursAt("<thi", CloseMarker, 0);
    assert !OccursAt("nk>", OpenMarker, 0);
    assert !OccursAt("nk>", CloseMarker, 0);
  }

  /** Every answer in `us` is `a`. */
  predicate OnlyAnswer(us: seq<Update>, a: string)
  {
    forall k | 0 <= k < |us| :: us[k].AnswerShown? ==> us[k].answer == a
  }

  lemma OnlyAnswerConcat(xs: seq<Update>, ys: seq<Update>, a: string)
    requires OnlyAnswer(xs, a) && OnlyAnswer(ys, a)
    ensures OnlyAnswer(xs + ys, a)
  {
    forall k | |xs| <= k < |xs + ys|
      ensures (xs + ys)[k] == ys[k - |xs|]
    {
    }
  }

  /** The answer shown by a chunk with `<think>`, if any, is the new answer. */
  lemma OpenAnswer(s: Segmenter, chunk: string)
    ensures s.answer <= OnOpen(s, chunk).next.answer
    ensures OnlyAnswer(OnOpen(s, chunk).updates, OnOpen(s, chunk).next.answer)
  {
    var o := OnOpen(s, chunk);
    var before := SubstringBefore(chunk, OpenMarker);
    var shown := if IsBlank(before) then [] else [AnswerShown(o.next.answer)];
    assert OnlyAnswer(shown, o.next.answer);
    if !Contains(chunk, CloseMarker) {
      var stack := s.stack + [SubstringAfter(chunk, OpenMarker)];
      OnlyAnswerConcat(shown, [ThinkingShown(Concat(stack))], o.next.answer);
    }
  }

  /** The answer shown by a chunk with `</think>`, if any, is the new answer. */
  lemma CloseAnswer(s: Segmenter, chunk: string)
    ensures s.answer <= OnClose(s, chunk).next.answer
    ensures OnlyAnswer(OnClose(s, chunk).updates, OnClose(s, chunk).next.answer)
  {
    var o := OnClose(s, chunk);
    var thought := SubstringBefore(chunk, CloseMarker);
    var after := SubstringAfter(chunk, CloseMarker);
    var thoughtShown := if IsBlank(thought) then [] else [ThinkingShown(Concat(s.stack + [thought]))];
    var answerShown := if IsBlank(after) then [] else [AnswerShown(o.next.answer)];
    OnlyAnswerConcat(thoughtShown, [ThinkingHidden], o.next.answer);
    OnlyAnswerConcat(thoughtShown + [ThinkingHidden], answerShown, o.next.answer);
  }

  /** Every answer shown by a step extends the answer before it and is the
      answer after it, so the answer only grows. */
  lemma StepAnswerGrows(s: Segmenter, chunk: string)
    ensures s.answer <= Step(s, chunk).next.answer
    ensures OnlyAnswer(Step(s, chunk).updates, Step(s, chunk).next.answer)
  {
    if Contains(chunk, OpenMarker) {
      OpenAnswer(s, chunk);
    } else if Contains(chunk, CloseMarker) {
      CloseAnswer(s, chunk);
    }
  }

  /** The state after a sequence of chunks. */
  function Run(s: Segmenter, chunks: seq<string>): Segmenter
  {
    if chunks == [] then s else Step(Run(s, chunks[..|chunks| - 1]), chunks[|chunks| - 1]).next
  }

  /** The updates caused by a sequence of chunks, in order. */
  function RunUpdates(s: Segmenter, chunks: seq<string>): seq<Update>
  {
    if chunks == [] then []
    else
      var init := chunks[..|chunks| - 1];
      RunUpdates(s, init) + Step(Run(s, init), chunks[|chunks| - 1]).updates
  }

  /** Running two sequences one after the other is running their concatenation. */
  lemma {:induction false} RunAppend(s: Segmenter, xs: seq<string>, ys: seq<string>)
    ensures Run(s, xs + ys) == Run(Run(s, xs), ys)
    decreases |ys|
  {
    if ys != [] {
      assert (xs + ys)[..|xs + ys| - 1] == xs + ys[..|ys| - 1];
      RunAppend(s, xs, ys[..|ys| - 1]);
    } else {
      assert xs + ys == xs;
    }
  }

  /** Outside a thinking block, marker-free chunks are appended verbatim. */
  lemma {:induction false} RunMarkerFree(s: Segmenter, chunks: seq<string>)
    requires !s.inThinking
    requires forall i | 0 <= i < |chunks| :: MarkerFree(chunks[i])
    ensures Run(s, chunks) == Segmenter(s.answer + Concat(chunks), s.stack, false)
    decreases |chunks|
  {
    if chunks != [] {
      var init := chunks[..|chunks| - 1];
      RunMarkerFree(s, init);
      StepMarkerFree(Run(s, init), chunks[|chunks| - 1]);
    }
  }

  /** Chunk by chunk, each answer extends the one before it: the
      message's content only ever grows. */
  lemma {:induction false} RunAnswerGrows(s: Segmenter, chunks: seq<string>, i: nat, j: nat)
    requires i <= j <= |chunks|
    ensures Run(s, chunks[..i]).answer <= Run(s, chunks[..j]).answer
    decreases j
  {
    if i < j {
      var prev := chunks[..j - 1];
      assert chunks[..j][..j - 1] == prev && chunks[..j][j - 1] == chunks[j - 1];
      assert prev[..i] == chunks[..i];
      RunAnswerGrows(s, chunks, i, j - 1);
      StepAnswerGrows(Run(s, prev), chunks[j - 1]);
      PrefixTransitive(Run(s, chunks[..i]).answer, Run(s, prev).answer, Run(s, chunks[..j]).answer);
    }
  }

  lemma PrefixTransitive(a: string, b: string, c: string)
    requires a <= b && b <= c
    ensures a <= c
  {
    assert c[..|b|][..|a|] == c[..|a|];
  }

  /** What the desktop client's stream starts with: a thinking block that
      opens and closes in one chunk, then a lone `</think>` before the
      first decoded content. */
  const Prelude: seq<string> := ["<think>Thinking...</think>", "</think>"]

  /** The first prelude chunk opens and closes a block at once: the stream
      is left inside a thinking block with nothing pushed. */
  lemma PreludeOpens()
    ensures Step(Initial, Prelude[0]).next == Segmenter("", [], true)
    ensures Step(Initial, Prelude[0]).updates == []
  {
    var c := Prelude[0];
    assert OccursAt(c, OpenMarker, 0) && OccursAt(c, CloseMarker, 18);
    assert SubstringBefore(c, OpenMarker) == "";
  }

  /** The lone `</think>` ends the block. */
  lemma PreludeCloses()
    ensures Step(Segmenter("", [], true), Prelude[1]).next == Initial
    ensures Step(Segmenter("", [], true), Prelude[1]).updates == [ThinkingHidden]
  {
    var c := Prelude[1];
    assert OccursAt(c, CloseMarker, 0);
    assert !OccursAt(c, OpenMarker, 0) && !OccursAt(c, OpenMarker, 1);
    assert !Contains(c, OpenMarker);
    assert SubstringBefore(c, CloseMarker) == "" && SubstringAfter(c, CloseMarker) == "";
  }

  /** After that prelude, marker-free contents all land in the answer, in
      order, and the stream is no longer in a thinking block. */
  lemma PreludeThenContents(contents: seq<string>)
    requires forall i | 0 <= i < |contents| :: MarkerFree(contents[i])
    ensures Run(Initial, Prelude + contents) == Segmenter(Concat(contents), [], false)
  {
    PreludeOpens();
    PreludeCloses();
    assert Prelude[..1] == [Prelude[0]] && [Prelude[0]][..0] == [];
    assert Run(Initial, Prelude) == Initial;
    RunAppend(Initial, Prelude, contents);
    RunMarkerFree(Initial, contents);
  }
}
