/**
 The outcome of a story generation request, as both front ends see it, and the friendly
 error text they show. The request itself (the network call) is not modelled: its outcome
 is an input.
 */
module StoryReply {

  /**
   How a generation request ended: a story in an OK reply, a non-OK status, or an exception
   (network failure or unreadable body) carrying its message.
   */
  datatype Reply = Delivered(story: string) | NotOk | Thrown(message: string)

  /** The message of the exception raised on a non-OK status. */
  const FailedMessage := "Failed to generate story"

  /** The user-facing text built from an exception's message. */
  function ErrorText(message: string): (text: string)
    ensures |text| == |message| + 25
    ensures text[..6] == "Oops! " && text[6..6 + |message|] == message
    ensures text[6 + |message|..] == ". Please try again!"
    ensures text != ""
  {
    "Oops! " + message + ". Please try again!"
  }

  /** The text shown for a non-OK reply. */
  lemma NotOkErrorText()
    ensures ErrorText(FailedMessage) == "Oops! Failed to generate story. Please try again!"
  {
    var head := "Oops! " + FailedMessage;
    assert head == "Oops! Failed to generate story";
    assert head + ". Please try again!" == "Oops! Failed to generate story. Please try again!";
  }

  /** The error text determines the exception message it was built from. */
  lemma ErrorTextInjective(m1: string, m2: string)
    requires ErrorText(m1) == ErrorText(m2)
    ensures m1 == m2
  {
    assert m1 == ErrorText(m1)[6..6 + |m1|];
  }
}
