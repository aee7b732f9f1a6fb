/**
 * The repositories group of the settings page: stable and Bforartists bind
 * their download to their visibility; daily and experimental do not, share
 * one non-exclusive download group (so their download boxes mirror each
 * other), and re-run `check_if_both_automated_are_disabled` whenever the
 * visibility of either changes. Qt delivers each signal to its slots in
 * connection order, inside the call that emitted it: a row's own slot first,
 * then the group's. For the two unbound rows a row's own slot changes
 * nothing after it emits, so running the group's slots once the row's call
 * has returned keeps Qt's order.
 */
module RepoGroups {

  import opened Wrappers
  import opened RepoVisibilityView

  /** The rows' descriptions, shown as their titles' tool tips. */
  const StableDescription: string := "Production-ready builds."
  const DailyDescription: string := "Builds created every day. They have the latest features and bug fixes, but they can be unstable."
  const ExperimentalDescription: string := "These have new features that may end up in official Blender releases. They can be unstable."
  const BforartistsDescription: string := "A popular fork of Blender with the goal of improving the UI."

  /** `RepoGroup`. */
  class RepoGroup {
    const stable: RepoUserView
    const daily: RepoUserView
    const experimental: RepoUserView
    const bforartists: RepoUserView

    /** Four distinct rows; only stable and Bforartists bind the download to the library. */
    predicate Valid() {
      && stable != daily && stable != experimental && stable != bforartists
      && daily != experimental && daily != bforartists && experimental != bforartists
      && stable.bindDownloadToLibrary && bforartists.bindDownloadToLibrary
      && !daily.bindDownloadToLibrary && !experimental.bindDownloadToLibrary
    }

    /** The shared download group keeps the daily and experimental download boxes equal. */
    predicate Mirrored()
      reads daily, experimental
    {
      daily.download == experimental.download
    }

    /** How many of the two automated repositories are hidden. */
    function Hidden(): nat
      reads daily, experimental
    {
      (if daily.library then 0 else 1) + (if experimental.library then 0 else 1)
    }

    /** How many of the two automated download boxes differ from `c`. */
    function Differing(c: bool): nat
      reads daily, experimental
    {
      (if daily.download != c then 1 else 0) + (if experimental.download != c then 1 else 0)
    }

    /**
     * `RepoGroup()`: the four rows from the settings (daily and experimental both fetch as
     * the automated-builds setting says), then one check. When both automated repositories are
     * hidden, their downloads end cleared and disabled; otherwise both download boxes are
     * enabled and keep the setting.
     */
    constructor (showStable: bool, scrapeStable: bool, showDaily: bool, scrapeAutomated: bool,
                 showExperimental: bool, showBfa: bool, scrapeBfa: bool)
      ensures Valid() && Mirrored()
      ensures stable.name == "Stable" && daily.name == "Daily"
      ensures experimental.name == "Experimental and Patch" && bforartists.name == "Bforartists"
      ensures stable.library == showStable && stable.download == scrapeStable
      ensures bforartists.library == showBfa && bforartists.download == scrapeBfa
      ensures daily.library == showDaily && experimental.library == showExperimental
      ensures !showDaily && !showExperimental ==>
        !daily.download && !experimental.download && !daily.downloadEnabled && !experimental.downloadEnabled
      ensures showDaily || showExperimental ==>
        daily.download == scrapeAutomated && daily.downloadEnabled && experimental.downloadEnabled
    {
      stable := new RepoUserView("Stable", StableDescription, Some(showStable), Some(scrapeStable), true);
      daily := new RepoUserView("Daily",
        DailyDescription,
        Some(showDaily), Some(scrapeAutomated), false);
      experimental := new RepoUserView("Experimental and Patch",
        ExperimentalDescription,
        Some(showExperimental), Some(scrapeAutomated), false);
      bforartists := new RepoUserView("Bforartists", BforartistsDescription,
        Some(showBfa), Some(scrapeBfa), true);
      new;
      CheckIfBothAutomatedAreDisabled();
    }

    /**
     * `check_if_both_automated_are_disabled`: with both automated repositories hidden, clear
     * the download (the group clears the other one too) and disable both download boxes; with
     * either shown and the download off, enable both boxes. Visibility is never changed.
     */
    method CheckIfBothAutomatedAreDisabled()
      requires Valid()
      modifies daily, experimental
      decreases Hidden(), 2, 2
      ensures daily.library == old(daily.library) && experimental.library == old(experimental.library)
      ensures !old(daily.library) && !old(experimental.library) ==>
        && !daily.download && experimental.download == (old(experimental.download) && !old(daily.download))
        && !daily.downloadEnabled && !experimental.downloadEnabled
      ensures (old(daily.library) || old(experimental.library)) && !old(daily.download) ==>
        && daily.download == old(daily.download) && experimental.download == old(experimental.download)
        && daily.downloadEnabled && experimental.downloadEnabled
      ensures (old(daily.library) || old(experimental.library)) && old(daily.download) ==>
        && daily.download == old(daily.download) && experimental.download == old(experimental.download)
        && daily.downloadEnabled == old(daily.downloadEnabled) && experimental.downloadEnabled == old(experimental.downloadEnabled)
    {
      if !daily.library && !experimental.library {
        var wasOn := daily.download;
        // The `download` setter; clearing a download never shows a repository.
        daily.SetDownload(false);
        if wasOn {
          AutomatedDownloadToggled(daily, false);
        }
        daily.downloadEnabled := false;
        experimental.downloadEnabled := false;
        return;
      }
      if (daily.library || experimental.library) && !daily.download {
        daily.downloadEnabled := true;
        experimental.downloadEnabled := true;
      }
    }

    /**
     * The shared group's `buttonToggled(btn, checked)` after `source`'s download box toggled to
     * `c`: the other row follows. The source row's own slot finds nothing to do, and `btn is not
     * self` always holds, since it compares a checkbox with a row. When the other row follows,
     * its visibility may turn on (which re-runs the check) and its toggle reaches the group again.
     * Both download boxes end at `c`, and visibility only ever turns on.
     */
    method AutomatedDownloadToggled(source: RepoUserView, c: bool)
      requires Valid()
      requires source == daily || source == experimental
      requires source.download == c
      modifies daily, experimental
      decreases Hidden(), Differing(c), 1
      ensures daily.download == c && experimental.download == c
      ensures !c ==> daily.library == old(daily.library) && experimental.library == old(experimental.library)
      ensures c ==> daily.library == (old(daily.library) || !old(daily.download))
      ensures c ==> experimental.library == (old(experimental.library) || !old(experimental.download))
      ensures daily.downloadEnabled == old(daily.downloadEnabled) && experimental.downloadEnabled == old(experimental.downloadEnabled)
    {
      var other := if source == daily then experimental else daily;
      if other.download != c {
        var wasShown := other.library;
        other.DownloadToggled(c);
        if other.library != wasShown {
          CheckIfBothAutomatedAreDisabled();
        }
        AutomatedDownloadToggled(other, c);
      }
    }

    /**
     * A row's library box checked or cleared. For the automated rows the download is left as it
     * is and the check runs; hiding both clears and disables both downloads, and showing one
     * while the download is off enables both download boxes.
     */
    method ToggleLibrary(row: RepoUserView, checked: bool)
      requires Valid() && Mirrored()
      requires row in {stable, daily, experimental, bforartists}
      modifies row, daily, experimental
      ensures Mirrored() && row.library == checked
      ensures row in {stable, bforartists} ==> unchanged(daily, experimental)
      ensures row in {daily, experimental} && old(row.library) != checked ==>
        var hidden := !daily.library && !experimental.library;
        && daily.library == (if row == daily then checked else old(daily.library))
        && experimental.library == (if row == experimental then checked else old(experimental.library))
        && (hidden ==> !daily.download && !daily.downloadEnabled && !experimental.downloadEnabled)
        && (!hidden ==> daily.download == old(daily.download))
        && (!hidden && !daily.download ==> daily.downloadEnabled && experimental.downloadEnabled)
    {
      var wasShown := row.library;
      row.SetLibrary(checked);
      if (row == daily || row == experimental) && row.library != wasShown {
        CheckIfBothAutomatedAreDisabled();
      }
    }

    /**
     * A row's download box checked or cleared. The two automated downloads stay equal; checking
     * one of them when it was off shows both automated repositories, since the other row's box
     * follows and showing is what checking a download does. Checking the hidden experimental
     * row's download re-runs the check while the daily download is still off, which enables
     * both download boxes; checking the daily one leaves them as they were.
     */
    method ToggleDownload(row: RepoUserView, checked: bool)
      requires Valid() && Mirrored()
      requires row in {stable, daily, experimental, bforartists}
      modifies row, daily, experimental
      ensures Mirrored() && row.download == checked
      ensures row.library == (old(row.library) || (checked && !old(row.download)))
      ensures row in {stable, bforartists} ==> unchanged(daily, experimental)
      ensures row in {daily, experimental} ==>
        && daily.download == checked
        && (checked && !old(row.download) ==> daily.library && experimental.library)
        && (!checked ==> daily.library == old(daily.library) && experimental.library == old(experimental.library))
      ensures row == daily || (row == experimental && (old(row.library) || !checked || old(row.download))) ==>
        daily.downloadEnabled == old(daily.downloadEnabled) && experimental.downloadEnabled == old(experimental.downloadEnabled)
      ensures row == experimental && !old(row.library) && checked && !old(row.download) ==>
        daily.downloadEnabled && experimental.downloadEnabled
    {
      var wasShown, wasOn := row.library, row.download;
      row.SetDownload(checked);
      if row == daily || row == experimental {
        if row.library != wasShown {
          CheckIfBothAutomatedAreDisabled();
        }
        if row.download != wasOn {
          AutomatedDownloadToggled(row, checked);
        }
      }
    }
  }
}
