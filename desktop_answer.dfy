/** The desktop client end to end: what its service emits for a chat,
    fed through its view model. */
module DesktopAnswer {
  import opened Wrappers
  import opened Text
  import opened ChunkedReader
  import Segmentation
  import Storage
  import JvmViewModel
  import DesktopService

  /** The placeholder followed by `</think>` is the view model's prelude. */
  lemma PreludeSplit(cs: seq<string>)
    ensures [Segmentation.Prelude[0]] + ([Segmentation.CloseMarker] + cs) == Segmentation.Prelude + cs
  {
    assert Segmentation.Prelude == [Segmentation.Prelude[0], Segmentation.CloseMarker];
  }

  /** What `chat` emits, fed to the desktop view model: when the reply
      carries responses whose contents hold no marker, the message ends SENT
      with exactly their text, the placeholder and the `</think>` having
      cancelled out. */
  lemma ShownAnswer(assistant: Storage.ChatMessage, head: seq<string>, frames: seq<string>, tail: string,
                    decode: string -> Option<ChatResponse>)
    requires DesktopService.PlainHead(head) && Sendable(frames)
    requires Responses(frames, decode) != []
    requires var cs := Contents(Responses(frames, decode));
      forall i | 0 <= i < |cs| :: Segmentation.MarkerFree(cs[i])
    ensures var cs := Contents(Responses(frames, decode));
      var emitted := [Segmentation.Prelude[0]] + DesktopService.Answer(DesktopService.ChunkedReply(head, frames, tail), decode).emitted;
      JvmViewModel.Final(assistant, emitted, None) == assistant.(content := Concat(cs), status := Storage.Sent)
  {
    var cs := Contents(Responses(frames, decode));
    var answer := DesktopService.Answer(DesktopService.ChunkedReply(head, frames, tail), decode);
    DesktopService.ChunkedReplyAnswered(head, frames, tail, decode);
    assert answer.emitted == [Segmentation.CloseMarker] + cs;
    PreludeSplit(cs);
    assert [Segmentation.Prelude[0]] + answer.emitted == Segmentation.Prelude + cs;
    JvmViewModel.DesktopStreamAnswer(assistant, None, cs);
  }
}
