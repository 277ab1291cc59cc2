/**
 * How the earlier form (`App.old.js`) relates to the current one (`App.js`): on every
 * event the old version has, both reach the same state; their effects differ only in
 * that the old one says nothing when submitting without a file, uses a shorter failure
 * alert and posts to a relative path.
 */
module Variants {
  import opened Form
  import App
  import AppOld

  function Embed(e: AppOld.Event): App.Event {
    match e
    case FileChosen(file) => App.FileChosen(file)
    case LanguageChosen(value) => App.LanguageChosen(value)
    case SubmitClicked => App.SubmitClicked
    case Settled(outcome) => App.Settled(outcome)
  }

  function EmbedAll(events: seq<AppOld.Event>): (r: seq<App.Event>)
    ensures |r| == |events|
    ensures forall k :: 0 <= k < |r| ==> r[k] == Embed(events[k])
  {
    seq(|events|, k requires 0 <= k < |events| => Embed(events[k]))
  }

  /** What the old version does in place of one effect of the current version. */
  function AsOldEffect(e: Effect): seq<Effect> {
    match e
    case Alert(message) =>
      if message == App.NoFileAlert then []
      else if message == App.FailureAlert then [Alert(AppOld.FailureAlert)]
      else [e]
    case Post(url, payload) =>
      [Post(if url == App.UploadUrl then AppOld.UploadUrl else url, payload)]
  }

  function AsOld(effects: seq<Effect>): seq<Effect>
    decreases |effects|
  {
    if effects == [] then [] else AsOldEffect(effects[0]) + AsOld(effects[1..])
  }

  lemma {:induction false} AsOldAppend(a: seq<Effect>, b: seq<Effect>)
    ensures AsOld(a + b) == AsOld(a) + AsOld(b)
    decreases |a|
  {
    if a != [] {
      assert (a + b)[0] == a[0];
      assert (a + b)[1..] == a[1..] + b;
      AsOldAppend(a[1..], b);
    } else {
      assert a + b == b;
    }
  }

  /** One event: the same next state, and the old effects are the translated new ones. */
  lemma SameStep(s: FormState, e: AppOld.Event)
    ensures App.Transition(s, Embed(e)).next == AppOld.Transition(s, e).next
    ensures AsOld(App.Transition(s, Embed(e)).effects) == AppOld.Transition(s, e).effects
  {
    assert App.NoFileAlert != App.FailureAlert by {
      assert |App.NoFileAlert| != |App.FailureAlert|;
    }
    var effects := App.Transition(s, Embed(e)).effects;
    if effects != [] {
      assert |effects| == 1;
      assert AsOld(effects) == AsOldEffect(effects[0]) + AsOld([]) by {
        assert effects[1..] == [];
      }
    }
  }

  /** Any sequence of the old version's events: same final state, corresponding effects. */
  lemma {:induction false} SameRun(s: FormState, events: seq<AppOld.Event>)
    ensures App.Run(s, EmbedAll(events)).next == AppOld.Run(s, events).next
    ensures AsOld(App.Run(s, EmbedAll(events)).effects) == AppOld.Run(s, events).effects
    decreases |events|
  {
    var embedded := EmbedAll(events);
    if events != [] {
      SameStep(s, events[0]);
      var t := AppOld.Transition(s, events[0]);
      assert EmbedAll(events[1..]) == embedded[1..];
      SameRun(t.next, events[1..]);
      AsOldAppend(App.Transition(s, embedded[0]).effects, App.Run(t.next, embedded[1..]).effects);
    }
  }

  /** The old version never shows a result while a request is pending either. */
  lemma OldRunKeepsPendingClear(s: FormState, events: seq<AppOld.Event>)
    requires PendingClear(s)
    ensures PendingClear(AppOld.Run(s, events).next)
  {
    SameRun(s, events);
    App.RunKeepsPendingClear(s, EmbedAll(events));
  }

  /** The current version fetches from the backend's `/static` tree, the old one from the page's origin. */
  lemma AssetUrlsDiffer(name: string)
    ensures App.AssetUrl(name) == App.BaseUrl + "/static" + AppOld.AssetUrl(name)
  {
  }

  /** Only the current version tells the user that a file is missing. */
  lemma NoFileSubmitDiffers(s: FormState)
    requires s.selectedFile.None?
    ensures App.SubmitStart(s).effects == [Alert(App.NoFileAlert)]
    ensures AppOld.SubmitStart(s).effects == []
  {
  }
}
