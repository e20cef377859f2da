/** The content script's state on one page: the module-level
    `extensionEnabled` flag, the attachment containers it rewrites in place
    and the preview modals it has added, with the loops and the message
    handler that change them. */
module ContentScript {
  import opened Wrappers
  import opened Settings
  import opened Attachments

  /** A message from the popup. */
  datatype Request =
    | ToggleExtension(enabled: bool)
    | CheckAttachments
    | OtherAction                    // any other `action`: no handler runs

  /** The value passed to `sendResponse`. */
  datatype Response =
    | ToggleReply(success: bool)
    | CountReply(attachmentCount: nat)

  class Page {
    var enabled: bool
    var containers: seq<Container>
    var openModals: nat

    /** Every container is well formed: it holds a button row exactly when
        it carries the marker, so never more than one. */
    ghost predicate Valid()
      reads this
    {
      AllWellFormed(containers)
    }

    /** A page as the host renders it, before the script has run, with the
        flag at its initial value `true`. */
    constructor (host: seq<Container>)
      requires forall k :: 0 <= k < |host| ==> Pristine(host[k])
      ensures Valid()
      ensures enabled && containers == host && openModals == 0
    {
      enabled := true;
      containers := host;
      openModals := 0;
    }

    /** `init` on a document that has finished loading, as written: the
        storage read is started but only resolves after the synchronous
        `enhanceAttachments()` call, which therefore always runs with the
        initial `true`. */
    constructor Start(host: seq<Container>, read: StorageRead)
      requires forall k :: 0 <= k < |host| ==> Pristine(host[k])
      ensures Valid() && openModals == 0
      ensures containers == EnhancePass(true, host)
      ensures enabled == LoadedSetting(read)
    {
      enabled := true;
      containers := host;
      openModals := 0;
      new;
      EnhanceAttachments();
      LoadSettings(read);
    }

    /** `init` as evidently intended: the stored setting is applied before
        the first enhancement pass, so a stored `false` leaves the page
        untouched. */
    constructor StartWithStoredSetting(host: seq<Container>, read: StorageRead)
      requires forall k :: 0 <= k < |host| ==> Pristine(host[k])
      ensures Valid() && openModals == 0
      ensures enabled == LoadedSetting(read)
      ensures containers == EnhancePass(enabled, host)
      ensures !enabled ==> containers == host
    {
      enabled := true;
      containers := host;
      openModals := 0;
      new;
      LoadSettings(read);
      EnhanceAttachments();
    }

    /** `loadSettings` once the storage read has completed: only the flag
        changes; nothing is enhanced or removed. */
    method LoadSettings(read: StorageRead)
      requires Valid()
      modifies this
      ensures Valid()
      ensures enabled == LoadedSetting(read)
      ensures containers == old(containers) && openModals == old(openModals)
    {
      enabled := LoadedSetting(read);
    }

    /** `enhanceAttachments`: when enabled, the per-container step on every
        container in document order, each step touching only its own
        container. */
    method EnhanceAttachments()
      requires Valid()
      modifies this
      ensures Valid()
      ensures enabled == old(enabled) && openModals == old(openModals)
      ensures containers == EnhancePass(enabled, old(containers))
    {
      if !enabled {
        return;
      }
      var i := 0;
      while i < |containers|
        invariant 0 <= i <= |containers| == |old(containers)|
        invariant enabled == old(enabled) && openModals == old(openModals)
        invariant forall k :: 0 <= k < i ==> containers[k] == EnhanceContainer(old(containers)[k]).container
        invariant forall k :: i <= k < |containers| ==> containers[k] == old(containers)[k]
      {
        var step := EnhanceContainer(containers[i]);
        containers := containers[i := step.container];
        i := i + 1;
      }
      EnhancedPointwise(old(containers), containers);
      EnhancePassWellFormed(true, old(containers));
    }

    /** `removeEnhancements`: every marked container loses its first button
        row and its marker; then every open modal is removed. */
    method RemoveEnhancements()
      requires Valid()
      modifies this
      ensures Valid()
      ensures enabled == old(enabled) && openModals == 0
      ensures containers == RemovePass(old(containers))
    {
      var i := 0;
      while i < |containers|
        invariant 0 <= i <= |containers| == |old(containers)|
        invariant enabled == old(enabled)
        invariant forall k :: 0 <= k < i ==> containers[k] == RemoveEnhancement(old(containers)[k])
        invariant forall k :: i <= k < |containers| ==> containers[k] == old(containers)[k]
      {
        if containers[i].enhanced {
          containers := containers[i := RemoveEnhancement(containers[i])];
        }
        i := i + 1;
      }
      RemovedPointwise(old(containers), containers);
      RemovePassClears(old(containers));
      openModals := 0;
    }

    /** The first effect of `previewFile`: a modal is appended to the page,
        whether or not the extension is enabled. */
    method ShowPreviewModal()
      requires Valid()
      modifies this
      ensures Valid()
      ensures openModals == old(openModals) + 1
      ensures enabled == old(enabled) && containers == old(containers)
    {
      openModals := openModals + 1;
    }

    /** The number of attachment containers on the page, marked or not and
        whatever the flag says. */
    method CountAttachments() returns (count: nat)
      ensures count == |containers|
    {
      count := |containers|;
    }

    /** The `chrome.runtime.onMessage` listener. A toggle stores the new
        flag, enhances or removes accordingly and replies success; a count
        request only reads; any other action gets no reply. */
    method HandleMessage(request: Request) returns (response: Option<Response>)
      requires Valid()
      modifies this
      ensures Valid()
      ensures request.ToggleExtension? ==>
        && enabled == request.enabled
        && response == Some(ToggleReply(true))
        && (request.enabled ==> containers == EnhancePass(true, old(containers))
                                 && openModals == old(openModals))
        && (!request.enabled ==> containers == RemovePass(old(containers)) && openModals == 0)
      ensures request.CheckAttachments? ==>
        response == Some(CountReply(|old(containers)|)) && unchanged(this)
      ensures request.OtherAction? ==> response == None && unchanged(this)
    {
      match request
      case ToggleExtension(on) =>
        enabled := on;
        if enabled {
          EnhanceAttachments();
        } else {
          RemoveEnhancements();
        }
        response := Some(ToggleReply(true));
      case CheckAttachments =>
        var count := CountAttachments();
        response := Some(CountReply(count));
      case OtherAction =>
        response := None;
    }
  }

  /** A page whose one attachment is eligible, started while storage holds
      `false`, ends up disabled yet enhanced: the stored setting does not
      stop the first pass. Applying the setting first leaves it untouched. */
  lemma StoredOffIgnoredAtStartup(href: string, title: string, tab: string)
    ensures var c := Container(Some(AttachmentAnchor(href, "")), Some(title), Some(tab), false, []);
      var read := ReadOk(Flag(false));
      && !LoadedSetting(read)
      && EnhancePass(true, [c])[0].enhanced
      && |EnhancePass(true, [c])[0].buttonRows| == 1
      && EnhancePass(LoadedSetting(read), [c]) == [c]
  {
    var c := Container(Some(AttachmentAnchor(href, "")), Some(title), Some(tab), false, []);
    EnhanceEligible(c);
  }
}
