/** The flashcard creation form (frontend-react/src/components/FlashcardModal.js):
    its front and back fields, their reset when a new topic arrives, and the
    validation that decides whether the card is handed on. */
module FlashcardForm {
  import opened Wrappers
  import opened JsText
  import MindmapDoc

  const DefaultDeck := "Padrão"

  datatype FlashcardPayload = FlashcardPayload(mapId: Option<string>, front: string, back: string, deck: string)

  /** A closed modal renders no form; an open one either refuses the input
      (with an alert) or calls `onSubmit` with the payload. */
  datatype SubmitOutcome = NotRendered | Refused | Submitted(payload: FlashcardPayload)

  /** `handleSubmit`'s check: both fields non-empty after trimming. */
  predicate Acceptable(front: string, back: string) {
    Trim(front) != "" && Trim(back) != ""
  }

  /** Submitting the form: refused exactly when a field is empty or white
      space only; otherwise the untrimmed fields go out in the default deck. */
  function Submit(isOpen: bool, mapId: Option<string>, front: string, back: string): (r: SubmitOutcome)
    ensures r.NotRendered? <==> !isOpen
    ensures isOpen ==> (r.Refused? <==> Blank(front) || Blank(back))
    ensures r.Submitted? ==> r.payload == FlashcardPayload(mapId, front, back, DefaultDeck)
  {
    TrimEmptyIffBlank(front);
    TrimEmptyIffBlank(back);
    if !isOpen then NotRendered
    else if !Acceptable(front, back) then Refused
    else Submitted(FlashcardPayload(mapId, front, back, DefaultDeck))
  }

  class FlashcardModal {
    var front: string
    var back: string

    constructor ()
      ensures front == "" && back == ""
    {
      front := "";
      back := "";
    }

    /** The effect on `topic`: with a topic, the front becomes the topic's
        text content (`text`, extracted by the DOM) and the back is cleared. */
    method TopicChanged(topic: Option<MindmapDoc.FlowTopic>, text: string)
      modifies this
      ensures topic.None? ==> front == old(front) && back == old(back)
      ensures topic.Some? ==> front == text && back == ""
    {
      if topic.Some? {
        front := text;
        back := "";
      }
    }

    /** The front textarea's `onChange`. */
    method EditFront(value: string)
      modifies this
      ensures front == value && back == old(back)
    {
      front := value;
    }

    /** The back textarea's `onChange`. */
    method EditBack(value: string)
      modifies this
      ensures back == value && front == old(front)
    {
      back := value;
    }

    /** `handleSubmit` on the current fields. */
    method HandleSubmit(isOpen: bool, mapId: Option<string>) returns (r: SubmitOutcome)
      ensures r == Submit(isOpen, mapId, front, back)
    {
      if !isOpen {
        return NotRendered;
      }
      if Trim(front) == "" || Trim(back) == "" {
        return Refused;
      }
      r := Submitted(FlashcardPayload(mapId, front, back, DefaultDeck));
    }
  }
}
