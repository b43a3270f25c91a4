/**
 * The "new RSS subscription" dialog (`NewRssSubscriptionModal`): a form of
 * four fields, a `submitLoader` flag that blocks a second submit while the
 * create mutation is in flight, validation before the mutation, and a
 * close that happens only when the mutation succeeds.
 */
module RssModal {
  import opened Js

  /** `collectionId` and `collectionName` may become undefined through the
      collection picker. */
  datatype RssForm = RssForm(name: string, url: string, collectionId: Option<int>, collectionName: Option<string>)

  function InitialForm(): RssForm {
    RssForm("", "", Some(0), Some(""))
  }

  /** The submit guard: a name, a url, and an existing or a new collection. */
  predicate Complete(form: RssForm) {
    form.name != "" && form.url != "" && (NumTruthy(form.collectionId) || StrTruthy(form.collectionName))
  }

  /** The initial form never passes validation. */
  lemma InitialFormIncomplete()
    ensures !Complete(InitialForm())
  {
  }

  /** An option of the collection picker. */
  datatype CollectionOption = CollectionOption(value: Option<int>, labelText: string, isNew: bool)

  /** The form after the collection picker's change: a newly created
      collection has no id yet, but keeps its name. */
  function WithCollection(form: RssForm, e: Option<CollectionOption>): (f: RssForm)
    ensures f.name == form.name && f.url == form.url
    ensures e.None? ==> f.collectionId.None? && f.collectionName.None?
    ensures e.Some? ==> f.collectionName == Some(e.value.labelText)
    ensures e.Some? && e.value.isNew ==> f.collectionId.None?
    ensures e.Some? && !e.value.isNew ==> f.collectionId == e.value.value
  {
    match e
    case None => form.(collectionId := None, collectionName := None)
    case Some(o) => form.(collectionId := if o.isNew then None else o.value, collectionName := Some(o.labelText))
  }

  /** A new collection with a non-empty name is enough for the collection part of the guard. */
  lemma NewCollectionSatisfiesGuard(form: RssForm, o: CollectionOption)
    requires form.name != "" && form.url != "" && o.isNew && o.labelText != ""
    ensures Complete(WithCollection(form, Some(o)))
  {
  }

  /** What one press of the submit button did. */
  datatype SubmitStep = Ignored | RejectedIncomplete | Sent

  class NewRssSubscriptionModal {
    var form: RssForm
    var submitLoader: bool
    /** The forms handed to the create mutation, oldest first. */
    var requests: seq<RssForm>
    /** Error messages shown, oldest first. */
    var errors: seq<string>
    /** How many times `onClose` was called. */
    var closeCalls: nat

    ghost predicate Valid()
      reads this
    {
      submitLoader ==> requests != []
    }

    constructor ()
      ensures Valid()
      ensures form == InitialForm() && !submitLoader && requests == [] && errors == [] && closeCalls == 0
    {
      form := InitialForm();
      submitLoader := false;
      requests := [];
      errors := [];
      closeCalls := 0;
    }

    method SetUrl(url: string)
      modifies this`form
      ensures form == old(form).(url := url)
    {
      form := form.(url := url);
    }

    method SetName(name: string)
      modifies this`form
      ensures form == old(form).(name := name)
    {
      form := form.(name := name);
    }

    method OnCollectionChange(e: Option<CollectionOption>)
      modifies this`form
      ensures form == WithCollection(old(form), e)
    {
      var value := if e.Some? then (if e.value.isNew then None else e.value.value) else None;
      var labelText := if e.Some? then Some(e.value.labelText) else None;
      form := form.(collectionId := value, collectionName := labelText);
    }

    /** The button's handler, up to the point where it awaits the mutation. */
    method Submit() returns (step: SubmitStep)
      requires Valid()
      modifies this`submitLoader, this`requests, this`errors
      ensures Valid()
      ensures step == Ignored <==> old(submitLoader)
      ensures step == RejectedIncomplete <==> !old(submitLoader) && !Complete(form)
      ensures step == Sent <==> !old(submitLoader) && Complete(form)
      ensures step == Sent ==> submitLoader && requests == old(requests) + [form] && errors == old(errors)
      ensures step == RejectedIncomplete ==>
                submitLoader == old(submitLoader) && requests == old(requests)
                && errors == old(errors) + ["fill_all_fields"]
      ensures step == Ignored ==>
                submitLoader == old(submitLoader) && requests == old(requests) && errors == old(errors)
    {
      if submitLoader {
        return Ignored;
      }
      if form.name == "" || form.url == "" || (!NumTruthy(form.collectionId) && !StrTruthy(form.collectionName)) {
        errors := errors + ["fill_all_fields"];
        return RejectedIncomplete;
      }
      submitLoader := true;
      requests := requests + [form];
      step := Sent;
    }

    /** The mutation's `onSettled`: the flag drops either way; the dialog
        closes only on success. */
    method Settle(error: Option<string>)
      requires Valid() && submitLoader
      modifies this`submitLoader, this`errors, this`closeCalls
      ensures Valid() && !submitLoader
      ensures closeCalls == old(closeCalls) + (if error.None? then 1 else 0)
      ensures errors == old(errors) + (if error.Some? then [error.value] else [])
    {
      submitLoader := false;
      if error.Some? {
        errors := errors + [error.value];
      } else {
        closeCalls := closeCalls + 1;
      }
    }

    /** A second press while the first request is in flight sends nothing. */
    method DoubleSubmit() returns (first: SubmitStep, second: SubmitStep)
      requires Valid() && !submitLoader && Complete(form)
      modifies this`submitLoader, this`requests, this`errors
      ensures first == Sent && second == Ignored
      ensures requests == old(requests) + [form]
    {
      first := Submit();
      second := Submit();
    }
  }
}
