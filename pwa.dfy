/** The install-prompt state of src/hooks/use-pwa.ts: three state fields and
    the three transitions that the `beforeinstallprompt` event, the
    `appinstalled` event and the `install` action perform. The browser probe
    for an installed app and the user's answer to the prompt are inputs. */
module Pwa {
  import opened Common

  /** The deferred `beforeinstallprompt` event. `answer` is the outcome its
      `userChoice` settled on, once `prompt()` has shown the dialog: an event
      shows its dialog at most once, and `userChoice` keeps the first answer. */
  datatype PromptEvent = PromptEvent(platforms: seq<string>, answer: Option<Outcome>)

  /** The user's answer, `userChoice.outcome`. */
  datatype Outcome = Accepted | Dismissed

  class InstallPrompt {
    var isInstalled: bool
    var canInstall: bool
    var deferredPrompt: Option<PromptEvent>

    /** The app can be installed exactly when a prompt is held back. */
    ghost predicate Valid()
      reads this
    {
      canInstall <==> deferredPrompt.Some?
    }

    /** `installedAtStart` is what the display-mode probe reports. */
    constructor (installedAtStart: bool)
      ensures Valid()
      ensures isInstalled == installedAtStart && !canInstall && deferredPrompt.None?
    {
      isInstalled := installedAtStart;
      canInstall := false;
      deferredPrompt := None;
    }

    /** beforeinstallprompt: hold the event back and offer installation. */
    method HandleBeforeInstall(e: PromptEvent)
      requires Valid()
      modifies this
      ensures Valid()
      ensures deferredPrompt == Some(e) && canInstall && isInstalled == old(isInstalled)
    {
      deferredPrompt := Some(e);
      canInstall := true;
    }

    /** appinstalled: the app is installed and nothing more can be offered. */
    method HandleAppInstalled()
      requires Valid()
      modifies this
      ensures Valid()
      ensures isInstalled && !canInstall && deferredPrompt.None?
    {
      isInstalled := true;
      canInstall := false;
      deferredPrompt := None;
    }

    /** install: without a held-back prompt nothing happens. Otherwise
        `prompt()` is called (`prompted`); it shows the dialog (`shown`) only
        for an event never shown before, where the user's `choice` becomes the
        event's answer. A shown-before event rejects `prompt()`, and its
        `userChoice` still yields the first answer. Only an accepted answer
        withdraws the offer. */
    method Install(choice: Outcome) returns (prompted: bool, shown: bool)
      requires Valid()
      modifies this
      ensures Valid()
      ensures prompted <==> old(deferredPrompt).Some?
      ensures shown <==> old(deferredPrompt).Some? && old(deferredPrompt).value.answer.None?
      ensures !prompted ==> unchanged(this)
      ensures isInstalled == old(isInstalled)
      ensures prompted && Answer(old(deferredPrompt).value, choice) == Accepted ==>
                !canInstall && deferredPrompt.None?
      ensures prompted && Answer(old(deferredPrompt).value, choice) == Dismissed ==>
                canInstall && deferredPrompt == Some(old(deferredPrompt).value.(answer := Some(Dismissed)))
    {
      if deferredPrompt.None? {
        return false, false;
      }
      var e := deferredPrompt.value;
      prompted, shown := true, e.answer.None?;
      var outcome := Answer(e, choice);
      if outcome == Accepted {
        canInstall := false;
        deferredPrompt := None;
      } else {
        deferredPrompt := Some(e.(answer := Some(outcome)));
      }
    }
  }

  /** The outcome `userChoice` resolves to: the recorded answer of an event
      already shown, otherwise the user's choice now. */
  function Answer(e: PromptEvent, choice: Outcome): (r: Outcome)
    ensures e.answer.None? ==> r == choice
    ensures e.answer.Some? ==> r == e.answer.value
  {
    if e.answer.Some? then e.answer.value else choice
  }

  /** After the user dismisses the dialog, a second `install` (with no new
      `beforeinstallprompt` in between) shows nothing and changes nothing,
      whatever the user would answer now; installation stays on offer. */
  method DismissThenRetry() returns (firstShown: bool, secondShown: bool, offered: bool)
    ensures firstShown && !secondShown && offered
  {
    var p := new InstallPrompt(false);
    p.HandleBeforeInstall(PromptEvent(["web"], None));
    var _, s1 := p.Install(Dismissed);
    var _, s2 := p.Install(Accepted);
    firstShown, secondShown, offered := s1, s2, p.canInstall;
  }
}
