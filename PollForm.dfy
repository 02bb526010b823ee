/**
 * The poll-creation form of src/components/CreatePollForm.js: a title and an
 * editable list of option texts that starts with two empty entries, can grow
 * by one empty entry, lose an entry at a position, or have one entry
 * replaced; submitting it hands the title and the non-blank options to the
 * caller's onCreatePoll callback and resets the form.
 *
 * Each new list is computed by a pure function; the component is a class
 * whose two state fields the event handlers reassign.
 */
module PollForm {
  import opened Wrappers
  import opened Text

  // ---------------------------------------------------------------------
  // The list operations
  // ---------------------------------------------------------------------

  /** handleAddOption: the spread-append [...options, ''] */
  function AddOption(options: seq<string>): (r: seq<string>)
    ensures |r| == |options| + 1
    ensures r[..|options|] == options && r[|options|] == ""
  {
    options + [""]
  }

  /** handleRemoveOption: options.filter((_, i) => i !== index), keeping
      every entry whose position is not index. Written as the filter it is,
      position by position; RemoveAtDeletesOne says what it amounts to. */
  function RemoveAt(options: seq<string>, index: int): (r: seq<string>)
    ensures |r| <= |options|
  {
    if options == [] then []
    else (if index == 0 then [] else [options[0]]) + RemoveAt(options[1..], index - 1)
  }

  /** Removing at an in-range position deletes exactly that entry and keeps
      the others in their order; an out-of-range position (negative, or past
      the end) matches no entry and leaves the list as it was. */
  lemma {:induction false} RemoveAtDeletesOne(options: seq<string>, index: int)
    ensures 0 <= index < |options| ==> RemoveAt(options, index) == options[..index] + options[index + 1..]
    ensures !(0 <= index < |options|) ==> RemoveAt(options, index) == options
  {
    if options != [] {
      var tail := options[1..];
      RemoveAtDeletesOne(tail, index - 1);
      if index == 0 {
        assert RemoveAt(options, index) == RemoveAt(tail, -1);
      } else if 0 < index < |options| {
        assert options[..index] == [options[0]] + tail[..index - 1];
        assert options[index + 1..] == tail[index..];
      } else {
        assert options == [options[0]] + tail;
      }
    }
  }

  /** handleOptionChange: copy the list, then assign the one slot. The
      handler is only wired to the inputs rendered for existing entries. */
  function ReplaceAt(options: seq<string>, index: int, value: string): (r: seq<string>)
    requires 0 <= index < |options|
    ensures |r| == |options| && r[index] == value
    ensures forall k :: 0 <= k < |options| && k != index ==> r[k] == options[k]
  {
    options[index := value]
  }

  /** A submitted option must not be blank: its trim is not empty. */
  predicate NonBlank(option: string)
  {
    Trim(option) != ""
  }

  /** handleSubmit's validOptions: options.filter(option => option.trim() !== ''),
      the entries themselves, not their trimmed forms. */
  function ValidOptions(options: seq<string>): (r: seq<string>)
    ensures |r| <= |options|
  {
    if options == [] then []
    else (if NonBlank(options[0]) then [options[0]] else []) + ValidOptions(options[1..])
  }

  /** validOptions holds exactly the non-blank entries: a string is in it
      if and only if it is an entry of the list that is not blank. */
  lemma {:induction false} ValidOptionsMembers(options: seq<string>)
    ensures forall x :: x in ValidOptions(options) <==> (x in options && NonBlank(x))
  {
    if options != [] {
      ValidOptionsMembers(options[1..]);
      assert options == [options[0]] + options[1..];
    }
  }

  /** The filter keeps the original order: filtering a concatenation is the
      concatenation of the filtered parts (with the singleton case given by
      the definition this pins the filter down completely). */
  lemma {:induction false} ValidOptionsAppend(a: seq<string>, b: seq<string>)
    ensures ValidOptions(a + b) == ValidOptions(a) + ValidOptions(b)
  {
    if a == [] {
      assert a + b == b;
    } else {
      var ab := a + b;
      assert ab[0] == a[0];
      assert ab[1..] == a[1..] + b;
      ValidOptionsAppend(a[1..], b);
    }
  }

  /** Blank entries, all-whitespace ones included, never reach validOptions. */
  lemma {:induction false} ValidOptionsAllBlank(options: seq<string>)
    requires forall k :: 0 <= k < |options| ==> AllWhitespace(options[k])
    ensures ValidOptions(options) == []
  {
    if options != [] {
      TrimEmptyIff(options[0]);
      ValidOptionsAllBlank(options[1..]);
    }
  }

  // ---------------------------------------------------------------------
  // The form state and what submitting does with it
  // ---------------------------------------------------------------------

  datatype FormState = FormState(title: string, options: seq<string>)

  /** What the form passes to onCreatePoll. */
  datatype Submission = Submission(title: string, options: seq<string>)

  /** useState('') and useState(['', '']) */
  const InitialForm := FormState("", ["", ""])

  /** The outcome of one press of the submit button. */
  datatype SubmitOutcome = SubmitOutcome(next: FormState, created: Option<Submission>)

  /** handleSubmit: call onCreatePoll(title, validOptions) and reset the form
      when the title is a non-empty string (the JavaScript truthiness test;
      a title of spaces passes) and at least two options are non-blank;
      otherwise show an alert and change nothing. */
  function Submit(s: FormState): (r: SubmitOutcome)
    ensures r.created.Some? <==> (s.title != "" && |ValidOptions(s.options)| >= 2)
    ensures r.created.Some? ==> r.created.value == Submission(s.title, ValidOptions(s.options)) && r.next == InitialForm
    ensures r.created.None? ==> r.next == s
  {
    var valid := ValidOptions(s.options);
    if s.title != "" && |valid| >= 2 then SubmitOutcome(InitialForm, Some(Submission(s.title, valid)))
    else SubmitOutcome(s, None)
  }

  /** Whatever the form hands to onCreatePoll has a non-empty title, at least
      two options, none of them blank, each one an entry of the form and in
      the form's order. */
  lemma SubmittedIsValid(s: FormState)
    requires Submit(s).created.Some?
    ensures Submit(s).created.value.title != ""
    ensures |Submit(s).created.value.options| >= 2
    ensures forall k :: 0 <= k < |Submit(s).created.value.options| ==>
      NonBlank(Submit(s).created.value.options[k]) && Submit(s).created.value.options[k] in s.options
  {
    ValidOptionsMembers(s.options);
  }

  /** The UI events the rendered form offers. */
  datatype UiEvent =
    | TitleEdited(value: string)
    | AddClicked
    | RemoveClicked(index: int)
    | OptionEdited(index: int, value: string)
    | SubmitClicked

  /** Whether the rendered form offers an event: an input exists for every
      entry, and a remove button only for entries at position 2 or later. */
  predicate Offered(s: FormState, e: UiEvent)
  {
    match e
    case RemoveClicked(i) => 2 <= i < |s.options|
    case OptionEdited(i, _) => 0 <= i < |s.options|
    case _ => true
  }

  /** The new form state after an offered event, given by the same list
      functions the handlers use. */
  function Apply(s: FormState, e: UiEvent): (r: FormState)
    requires Offered(s, e)
  {
    match e
    case TitleEdited(v) => s.(title := v)
    case AddClicked => s.(options := AddOption(s.options))
    case RemoveClicked(i) => s.(options := RemoveAt(s.options, i))
    case OptionEdited(i, v) => s.(options := ReplaceAt(s.options, i, v))
    case SubmitClicked => Submit(s).next
  }

  /** A run of UI events from a state, or None if some event in it is not
      one the form offers at that point. */
  function Run(s: FormState, events: seq<UiEvent>): Option<FormState>
    decreases |events|
  {
    if events == [] then Some(s)
    else if Offered(s, events[0]) then Run(Apply(s, events[0]), events[1..])
    else None
  }

  /** One offered event keeps at least two option entries. */
  lemma ApplyKeepsTwo(s: FormState, e: UiEvent)
    requires |s.options| >= 2 && Offered(s, e)
    ensures |Apply(s, e).options| >= 2
  {
    if e.RemoveClicked? {
      RemoveAtDeletesOne(s.options, e.index);
    }
  }

  /** Through any run of the events the UI offers, starting from the initial
      form or any form with two entries, the list never drops below two. */
  lemma {:induction false} RunKeepsTwo(s: FormState, events: seq<UiEvent>)
    requires |s.options| >= 2
    ensures Run(s, events).Some? ==> |Run(s, events).value.options| >= 2
    decreases |events|
  {
    if events != [] && Offered(s, events[0]) {
      ApplyKeepsTwo(s, events[0]);
      RunKeepsTwo(Apply(s, events[0]), events[1..]);
    }
  }

  /** The options "Pizza", " " and " " have a single non-blank entry, so the
      form refuses them whatever the title. */
  lemma PizzaOnlyIsRefused(title: string)
    ensures Submit(FormState(title, ["Pizza", " ", " "])).created == None
  {
  }

  // ---------------------------------------------------------------------
  // The component
  // ---------------------------------------------------------------------

  /** The CreatePollForm component: its two state fields and the handlers
      that reassign them. */
  class CreatePollForm {
    var title: string
    var options: seq<string>

    function State(): FormState
      reads this
    {
      FormState(title, options)
    }

    /** The form the UI keeps: at least two option entries. */
    predicate Valid()
      reads this
    {
      |options| >= 2
    }

    constructor ()
      ensures State() == InitialForm && Valid()
    {
      title := "";
      options := ["", ""];
    }

    /** The title input's onChange. */
    method SetTitle(value: string)
      modifies this`title
      ensures title == value && options == old(options)
    {
      title := value;
    }

    method HandleAddOption()
      modifies this`options
      ensures options == AddOption(old(options)) && title == old(title)
      ensures old(Valid()) ==> Valid()
    {
      options := AddOption(options);
    }

    /** Removes the entry at index, if there is one; the button that calls
        it exists only for positions 2 and later, which keeps Valid(). */
    method HandleRemoveOption(index: int)
      modifies this`options
      ensures options == RemoveAt(old(options), index) && title == old(title)
      ensures 0 <= index < old(|options|) ==> options == old(options[..index] + options[index + 1..])
      ensures !(0 <= index < old(|options|)) ==> options == old(options)
      ensures old(Valid()) && index >= 2 ==> Valid()
    {
      RemoveAtDeletesOne(options, index);
      options := RemoveAt(options, index);
    }

    method HandleOptionChange(index: int, value: string)
      requires 0 <= index < |options|
      modifies this`options
      ensures options == ReplaceAt(old(options), index, value) && title == old(title)
      ensures old(Valid()) ==> Valid()
    {
      options := ReplaceAt(options, index, value);
    }

    /** Returns the onCreatePoll call made, if any. */
    method HandleSubmit() returns (created: Option<Submission>)
      modifies this
      ensures SubmitOutcome(State(), created) == Submit(old(State()))
      ensures created.Some? ==> created.value.title != "" && |created.value.options| >= 2
      ensures created.Some? ==> forall k :: 0 <= k < |created.value.options| ==>
        NonBlank(created.value.options[k]) && created.value.options[k] in old(options)
      ensures created.None? ==> title == old(title) && options == old(options)
      ensures old(Valid()) ==> Valid()
    {
      var outcome := Submit(State());
      if outcome.created.Some? {
        SubmittedIsValid(old(State()));
      }
      title := outcome.next.title;
      options := outcome.next.options;
      created := outcome.created;
    }
  }
}
