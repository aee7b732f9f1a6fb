/**
 * One repository row of the settings page: a "visible in the library"
 * checkbox and a "fetch builds" checkbox. Qt's rules are part of the model:
 * `setChecked` emits `toggled` only when the state changes, and the slots
 * run at once, inside the call, so the handlers below call each other
 * re-entrantly. Every `library_changed` / `download_changed` signal is
 * recorded in `events`.
 */
module RepoVisibilityView {

  import opened Wrappers

  datatype ViewSignal = LibraryChanged(checked: bool) | DownloadChanged(checked: bool)

  /** A repository row (`RepoUserView`). */
  class RepoUserView {
    const name: string
    /** The title's tool tip: the description, when there is one. */
    const toolTip: Option<string>
    const bindDownloadToLibrary: bool

    /** The library checkbox is checked: the repository is shown. */
    var library: bool
    /** The download checkbox is checked: the repository is fetched. */
    var download: bool
    var libraryEnabled: bool
    var downloadEnabled: bool
    var titleEnabled: bool
    /** The download state saved when a bound library checkbox was cleared. */
    var previousDownload: bool
    var events: seq<ViewSignal>

    /**
     * `RepoUserView(name, description, library, download, bind_download_to_library)`: a `None`
     * state starts unchecked and disabled. The boxes are set before their slots are connected,
     * so nothing is emitted.
     */
    constructor (name: string, description: string, library: Option<bool>, download: Option<bool>, bindDownloadToLibrary: bool)
      ensures this.name == name && this.bindDownloadToLibrary == bindDownloadToLibrary
      ensures toolTip == if description == "" then None else Some(description)
      ensures this.library == (library == Some(true)) && libraryEnabled == library.Some?
      ensures this.download == (download == Some(true)) && downloadEnabled == download.Some?
      ensures previousDownload == this.download
      ensures titleEnabled && events == []
    {
      this.name := name;
      toolTip := if description == "" then None else Some(description);
      this.library := library == Some(true);
      libraryEnabled := library.Some?;
      this.download := download == Some(true);
      previousDownload := download == Some(true);
      downloadEnabled := download.Some?;
      this.bindDownloadToLibrary := bindDownloadToLibrary;
      titleEnabled := true;
      events := [];
    }

    /**
     * `library_enable_button.setChecked(checked)`, by a click or by code. When the state
     * changes, the title follows it; with the download bound to the library, clearing the
     * library saves and clears the download, and checking it restores the saved download;
     * without binding the download is left alone. The last signal carries the new state.
     */
    method SetLibrary(checked: bool)
      modifies this
      decreases if checked && !library then 1 else 0, if checked then 0 else 1, 3
      ensures library == checked
      ensures old(library) == checked ==> unchanged(this)
      ensures old(library) != checked ==>
        && titleEnabled == checked
        && (bindDownloadToLibrary && !checked ==> previousDownload == old(download) && !download)
        && (bindDownloadToLibrary && checked ==> download == old(previousDownload) && previousDownload == old(previousDownload))
        && (!bindDownloadToLibrary ==> download == old(download) && previousDownload == old(previousDownload))
        && events == old(events) + (if download != old(download) then [DownloadChanged(download)] else []) + [LibraryChanged(checked)]
      ensures libraryEnabled == old(libraryEnabled) && downloadEnabled == old(downloadEnabled)
    {
      if library == checked {
        return;
      }
      library := checked;
      LibraryButtonToggled(checked);
    }

    /** `__library_button_toggled`, the slot of the library checkbox. */
    method LibraryButtonToggled(checked: bool)
      requires library == checked
      modifies this
      decreases 0, 1, 2
      ensures library == checked && titleEnabled == checked
      ensures bindDownloadToLibrary && !checked ==> previousDownload == old(download) && !download
      ensures bindDownloadToLibrary && checked ==> download == old(previousDownload) && previousDownload == old(previousDownload)
      ensures !bindDownloadToLibrary ==> download == old(download) && previousDownload == old(previousDownload)
      ensures events == old(events) + (if download != old(download) then [DownloadChanged(download)] else []) + [LibraryChanged(checked)]
      ensures libraryEnabled == old(libraryEnabled) && downloadEnabled == old(downloadEnabled)
    {
      titleEnabled := checked;
      if bindDownloadToLibrary {
        LibraryBoundToggle(checked);
      }
      events := events + [LibraryChanged(checked)];
    }

    /** `__library_bound_toggle`: save and clear the download, or restore the saved one. */
    method LibraryBoundToggle(b: bool)
      requires library == b
      modifies this
      decreases 0, 1, 1
      ensures library == b && titleEnabled == old(titleEnabled)
      ensures !b ==> previousDownload == old(download) && !download
      ensures b ==> download == old(previousDownload) && previousDownload == old(previousDownload)
      ensures events == old(events) + (if download != old(download) then [DownloadChanged(download)] else [])
      ensures libraryEnabled == old(libraryEnabled) && downloadEnabled == old(downloadEnabled)
    {
      if !b {
        previousDownload := download;
        SetDownload(false);
      } else {
        SetDownload(previousDownload);
      }
    }

    /**
     * `download_enable_button.setChecked(checked)`, by a click or by code. Checking the download
     * of a hidden repository shows it; when that restores a saved download that was off, the
     * download flickers off and back on. The last signal carries the new state.
     */
    method SetDownload(checked: bool)
      modifies this
      decreases if checked && !library then 1 else 0, if download != checked then 1 else 0, 0
      ensures download == checked
      ensures old(download) == checked ==> unchanged(this)
      ensures old(download) != checked ==>
        && library == (old(library) || checked)
        && previousDownload == old(previousDownload)
        && titleEnabled == (if old(library) || !checked then old(titleEnabled) else true)
        && events == old(events) + TurnOnSignals(old(library), checked, bindDownloadToLibrary, old(previousDownload)) + [DownloadChanged(checked)]
      ensures libraryEnabled == old(libraryEnabled) && downloadEnabled == old(downloadEnabled)
    {
      if download == checked {
        return;
      }
      download := checked;
      DownloadButtonToggled(checked);
    }

    /** `__download_button_toggled`, the slot of the download checkbox. */
    method DownloadButtonToggled(checked: bool)
      requires download == checked
      modifies this
      decreases if checked && !library then 1 else 0, 0, 4
      ensures download == checked
      ensures library == (old(library) || checked)
      ensures previousDownload == old(previousDownload)
      ensures titleEnabled == (if old(library) || !checked then old(titleEnabled) else true)
      ensures events == old(events) + TurnOnSignals(old(library), checked, bindDownloadToLibrary, old(previousDownload)) + [DownloadChanged(checked)]
      ensures libraryEnabled == old(libraryEnabled) && downloadEnabled == old(downloadEnabled)
    {
      if !library && checked {
        SetLibrary(true);
      }
      SetDownload(checked);
      events := events + [DownloadChanged(checked)];
    }

    /**
     * `__download_toggled(btn, checked)`, the slot a shared download group calls: follow the
     * group's state when it differs from this row's.
     */
    method DownloadToggled(checked: bool)
      modifies this
      ensures download == checked
      ensures old(download) == checked ==> unchanged(this)
      ensures old(download) != checked ==>
        && library == (old(library) || checked)
        && events == old(events) + TurnOnSignals(old(library), checked, bindDownloadToLibrary, old(previousDownload)) + [DownloadChanged(checked)]
      ensures libraryEnabled == old(libraryEnabled) && downloadEnabled == old(downloadEnabled)
    {
      if checked != download {
        SetDownload(checked);
      }
    }
  }

  /**
   * The signals a download checkbox that is checked emits before its own `download_changed`,
   * when that shows the repository: the library's (and, with the download bound and saved as
   * off, the download's brief clearing and re-checking).
   */
  function TurnOnSignals(library: bool, checked: bool, bound: bool, previousDownload: bool): (r: seq<ViewSignal>)
    ensures library || !checked ==> r == []
    ensures !library && checked ==> LibraryChanged(true) in r && r[|r| - 1] != DownloadChanged(false)
  {
    if library || !checked then []
    else if bound && !previousDownload then [DownloadChanged(false), LibraryChanged(true), DownloadChanged(true)]
    else [LibraryChanged(true)]
  }
}
