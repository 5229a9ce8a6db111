/** The generator page: prompt checks, the character counter, the in-flight
    guard around a generation, the newest-first list of saved images that is
    mirrored to `localStorage`, and the rendered gallery. */
module Gallery {
  import opened Options
  import opened JsText
  import opened Storage

  const StorageKey: string := "generatedImages"
  /** `saveToLocalStorage` keeps this many of the newest images. */
  const MaxSaved: nat := 10
  /** `addToGallery` keeps at most this many rendered items. */
  const GalleryCap: nat := 10
  /** The fewest characters a trimmed prompt may have. */
  const MinPromptLength: nat := 10

  const EmptyPromptMessage: string := "Please enter a description for your image!"
  const ShortPromptMessage: string := "Please provide a more detailed description (at least 10 characters)."
  const FailurePrefix: string := "Failed to generate image: "
  const RequestFailedMessage: string := "Failed to generate image"
  const NoImageMessage: string := "No image data received"

  function Take<T>(s: seq<T>, n: nat): (r: seq<T>)
    ensures |r| == (if |s| <= n then |s| else n) && r == s[..|r|]
  {
    if |s| <= n then s else s[..n]
  }

  function Reversed<T>(s: seq<T>): (r: seq<T>)
    ensures |r| == |s|
  {
    if s == [] then [] else [s[|s| - 1]] + Reversed(s[..|s| - 1])
  }

  lemma TakeAppendTake<T>(a: seq<T>, b: seq<T>, n: nat)
    ensures Take(a + Take(b, n), n) == Take(a + b, n)
  {
    if |a| + |b| > n {
      assert (a + Take(b, n))[..n] == (a + b)[..n];
    }
  }

  // ---------------------------------------------------------------------
  // updateCharCount

  /** The colour of the character counter: grey `#6c757d`, amber `#ffc107`
      or red `#dc3545`. */
  datatype CounterColour = Muted | Warning | Danger

  function Severity(c: CounterColour): nat {
    match c
    case Muted => 0
    case Warning => 1
    case Danger => 2
  }

  /** The counter colour for the prompt box's raw (untrimmed) value. */
  function CounterColourFor(value: string): (c: CounterColour)
    ensures c == Danger <==> |value| > 500
    ensures c == Warning <==> 300 < |value| <= 500
    ensures c == Muted <==> |value| <= 300
  {
    var count := |value|;
    if count > 500 then Danger
    else if count > 300 then Warning
    else Muted
  }

  /** A longer prompt never shows a less severe colour. */
  lemma CounterColourMonotone(a: string, b: string)
    requires |a| <= |b|
    ensures Severity(CounterColourFor(a)) <= Severity(CounterColourFor(b))
  {
  }

  // ---------------------------------------------------------------------
  // The prompt checks at the top of generateImage

  datatype PromptCheck = Accepted(prompt: string) | Refused(message: string)

  /** Trim the prompt box's value, refuse it when empty or shorter than the
      minimum, otherwise hand on the trimmed prompt. */
  function CheckPrompt(value: string): (r: PromptCheck)
    ensures r.Accepted? <==> |Trim(value)| >= MinPromptLength
    ensures r.Accepted? ==> r.prompt == Trim(value) && IsTrimmed(r.prompt)
    ensures r == Refused(EmptyPromptMessage) <==> AllSpace(value)
    ensures r == Refused(ShortPromptMessage) <==> !AllSpace(value) && |Trim(value)| < MinPromptLength
  {
    var prompt := Trim(value);
    if prompt == "" then Refused(EmptyPromptMessage)
    else if |prompt| < MinPromptLength then Refused(ShortPromptMessage)
    else Accepted(prompt)
  }

  // ---------------------------------------------------------------------
  // The saved list (saveToLocalStorage) and the rendered gallery (addToGallery)

  /** The list after `unshift` of a new item and truncation to the newest
      ten: the new item first, then the older items in their order, the
      oldest dropped first. */
  function SavedList(images: seq<ImageItem>, item: ImageItem): (r: seq<ImageItem>)
    ensures |r| <= MaxSaved && |r| >= 1 && r[0] == item
    ensures r[1..] == Take(images, MaxSaved - 1)
    ensures |images| < MaxSaved ==> r == [item] + images && |r| == |images| + 1
  {
    var grown := [item] + images;
    if |grown| > MaxSaved then grown[..MaxSaved] else grown
  }

  /** The gallery's children after `insertBefore(item, firstChild)` and, when
      there are more than ten, `removeChild(lastChild)`. */
  function GalleryAfterAdd(g: seq<ImageItem>, item: ImageItem): (r: seq<ImageItem>)
    ensures |r| >= 1 && r[0] == item
    ensures |g| < GalleryCap ==> r == [item] + g
    ensures |g| <= GalleryCap ==> |r| <= GalleryCap && r == Take([item] + g, GalleryCap)
  {
    var grown := [item] + g;
    if |grown| > GalleryCap then grown[..|grown| - 1] else grown
  }

  /** The gallery after `addToGallery` of each item in turn. */
  function GalleryAfterLoad(g: seq<ImageItem>, items: seq<ImageItem>): seq<ImageItem> {
    if items == [] then g
    else GalleryAfterAdd(GalleryAfterLoad(g, items[..|items| - 1]), items[|items| - 1])
  }

  /** Loading inserts each saved item at the front in turn, so the gallery
      shows the saved list reversed, in front of what it held, cut to ten. */
  lemma {:induction false} GalleryAfterLoadReverses(g: seq<ImageItem>, items: seq<ImageItem>)
    requires |g| <= GalleryCap
    ensures GalleryAfterLoad(g, items) == Take(Reversed(items) + g, GalleryCap)
    decreases |items|
  {
    if items != [] {
      var front, x := items[..|items| - 1], items[|items| - 1];
      var shown := Take(Reversed(front) + g, GalleryCap);
      calc {
        GalleryAfterLoad(g, items);
        GalleryAfterAdd(GalleryAfterLoad(g, front), x);
        { GalleryAfterLoadReverses(g, front); }
        GalleryAfterAdd(shown, x);
        Take([x] + shown, GalleryCap);
        { TakeAppendTake([x], Reversed(front) + g, GalleryCap); }
        Take([x] + (Reversed(front) + g), GalleryCap);
        { assert [x] + (Reversed(front) + g) == Reversed(items) + g; }
        Take(Reversed(items) + g, GalleryCap);
      }
    }
  }

  /** The list after saving each item in turn. */
  function SavedAfter(images: seq<ImageItem>, items: seq<ImageItem>): seq<ImageItem> {
    if items == [] then images
    else SavedList(SavedAfter(images, items[..|items| - 1]), items[|items| - 1])
  }

  /** After any run of saves the list holds the newest ten: the saved items
      newest first, then what the list held before. */
  lemma {:induction false} SavedAfterKeepsNewest(images: seq<ImageItem>, items: seq<ImageItem>)
    requires items != []
    ensures SavedAfter(images, items) == Take(Reversed(items) + images, MaxSaved)
    decreases |items|
  {
    var front, x := items[..|items| - 1], items[|items| - 1];
    if front == [] {
      calc {
        SavedAfter(images, items);
        SavedList(images, x);
        Take([x] + images, MaxSaved);
        { assert Reversed(items) == [x]; }
        Take(Reversed(items) + images, MaxSaved);
      }
    } else {
      var before := Take(Reversed(front) + images, MaxSaved);
      calc {
        SavedAfter(images, items);
        SavedList(SavedAfter(images, front), x);
        { SavedAfterKeepsNewest(images, front); }
        SavedList(before, x);
        Take([x] + before, MaxSaved);
        { TakeAppendTake([x], Reversed(front) + images, MaxSaved); }
        Take([x] + (Reversed(front) + images), MaxSaved);
        { assert [x] + (Reversed(front) + images) == Reversed(items) + images; }
        Take(Reversed(items) + images, MaxSaved);
      }
    }
  }

  /** Eleven generations from an empty list leave exactly ten saved: the
      eleventh is first and the first is gone. */
  lemma ElevenSavesDropTheFirst(items: seq<ImageItem>)
    requires |items| == MaxSaved + 1
    requires forall i :: 1 <= i < |items| ==> items[i] != items[0]
    ensures var saved := SavedAfter([], items);
      |saved| == MaxSaved && saved[0] == items[MaxSaved] && items[0] !in saved
  {
    SavedAfterKeepsNewest([], items);
    var saved := SavedAfter([], items);
    forall k | 0 <= k < |saved|
      ensures saved[k] == items[MaxSaved - k]
    {
      ReversedAt(items, k);
    }
  }

  lemma {:induction false} ReversedAt<T>(s: seq<T>, k: nat)
    requires k < |s|
    ensures Reversed(s)[k] == s[|s| - 1 - k]
    decreases |s|
  {
    if k > 0 {
      ReversedAt(s[..|s| - 1], k - 1);
    }
  }

  /** When the gallery shows the first ten saved images, a successful
      generation keeps it so: adding to the gallery and saving to the list
      agree item for item. */
  lemma GenerationKeepsGalleryInStep(images: seq<ImageItem>, item: ImageItem)
    ensures GalleryAfterAdd(Take(images, GalleryCap), item) == SavedList(images, item)
  {
    TakeAppendTake([item], images, GalleryCap);
  }

  /** Finding: after a reload of ten saved images the gallery shows them
      oldest first, and the next generation then removes the NEWEST saved
      image from the gallery while the saved list drops the OLDEST one. The
      gallery shows an image the list no longer holds and hides one it
      holds. */
  lemma ReloadThenGenerateDiverges(items: seq<ImageItem>, item: ImageItem)
    requires |items| == MaxSaved
    requires forall i, j :: 0 <= i < j < |items| ==> items[i] != items[j]
    requires item !in items
    ensures var shown := GalleryAfterAdd(GalleryAfterLoad([], items), item);
      var saved := SavedList(items, item);
      items[0] in saved && items[0] !in shown
      && items[MaxSaved - 1] !in saved && items[MaxSaved - 1] in shown
  {
    ShownAfterReload(items, item);
    SavedAfterReload(items, item);
  }

  /** The gallery half of the finding: a reload shows the ten reversed, and
      the next generation pushes out the last child, `items[0]`. */
  lemma ShownAfterReload(items: seq<ImageItem>, item: ImageItem)
    requires |items| == MaxSaved
    requires forall i, j :: 0 <= i < j < |items| ==> items[i] != items[j]
    requires item !in items
    ensures var shown := GalleryAfterAdd(GalleryAfterLoad([], items), item);
      items[0] !in shown && items[MaxSaved - 1] in shown
  {
    var loaded := GalleryAfterLoad([], items);
    assert loaded == Reversed(items) by {
      GalleryAfterLoadReverses([], items);
      assert Reversed(items) + [] == Reversed(items);
    }
    var shown := GalleryAfterAdd(loaded, item);
    assert shown == [item] + loaded[..MaxSaved - 1];
    forall k | 0 <= k < MaxSaved - 1
      ensures loaded[k] != items[0]
    {
      ReversedAt(items, k);
    }
    ReversedAt(items, 0);
    assert shown[1] == items[MaxSaved - 1];
  }

  /** The saved half of the finding: the list keeps `items[0]` and drops
      `items[9]`. */
  lemma SavedAfterReload(items: seq<ImageItem>, item: ImageItem)
    requires |items| == MaxSaved
    requires forall i, j :: 0 <= i < j < |items| ==> items[i] != items[j]
    requires item !in items
    ensures var saved := SavedList(items, item);
      items[0] in saved && items[MaxSaved - 1] !in saved
  {
    var saved := SavedList(items, item);
    assert saved == [item] + items[..MaxSaved - 1];
    assert saved[1] == items[0];
  }

  /** The corrected load: inserting the saved items last first leaves the
      gallery showing the saved list in its own, newest-first order. */
  lemma LoadNewestFirstShowsSavedOrder(items: seq<ImageItem>)
    ensures GalleryAfterLoad([], Reversed(items)) == Take(items, GalleryCap)
  {
    GalleryAfterLoadReverses([], Reversed(items));
    ReversedReversed(items);
    assert Reversed(items) + [] == Reversed(items);
    assert Reversed(Reversed(items)) + [] == items;
  }

  lemma {:induction false} ReversedReversed<T>(s: seq<T>)
    ensures Reversed(Reversed(s)) == s
  {
    var r := Reversed(s);
    forall k | 0 <= k < |s|
      ensures Reversed(r)[k] == s[k]
    {
      ReversedAt(r, k);
      ReversedAt(s, |s| - 1 - k);
    }
  }

  // ---------------------------------------------------------------------
  // The reply to the page's request, as far as generateImage looks at it

  /** What `fetch` and `response.json()` give the page: either one of them
      threw, or a reply with its `ok` flag and the JSON fields read. */
  datatype ProxyReply =
    | Unreachable(message: string)
    | Reply(ok: bool, error: Option<string>, image: Option<string>, timestamp: string)

  /** What the try block makes of a reply: an image to show, or the message
      of the error it throws. */
  datatype Verdict = Show(imageData: string, timestamp: string) | Fail(message: string)

  function Interpret(reply: ProxyReply): (v: Verdict)
    ensures v.Show? <==> reply.Reply? && reply.ok && Truthy(reply.image)
    ensures v.Show? ==> v.imageData == reply.image.value && v.timestamp == reply.timestamp
    ensures reply.Unreachable? ==> v == Fail(reply.message)
    ensures reply.Reply? && !reply.ok ==>
      v == Fail(if Truthy(reply.error) then reply.error.value else RequestFailedMessage)
    ensures reply.Reply? && reply.ok && !Truthy(reply.image) ==> v == Fail(NoImageMessage)
  {
    match reply
    case Unreachable(message) => Fail(message)
    case Reply(ok, error, image, timestamp) =>
      if !ok then Fail(if Truthy(error) then error.value else RequestFailedMessage)
      else if Truthy(image) then Show(image.value, timestamp)
      else Fail(NoImageMessage)
  }

  /** How the first half of generateImage ends: the prompt was refused, a
      generation was already in flight, or the request was sent. */
  datatype Start = Rejected(message: string) | Busy | Started(prompt: string)

  /** How a started generation ends. `Failed` carries the message shown. */
  datatype Completion = Generated(item: ImageItem) | Failed(message: string)

  /** The parsed form of the stored image list: only a stored list parses. */
  function ParseImageList(v: Stored): Option<seq<ImageItem>> {
    match v
    case ImageList(items) => Some(items)
    case _ => None
  }

  /** The page's global state: the saved list, the in-flight flag and the
      rendered gallery. `pending` is the trimmed prompt of the request whose
      reply is awaited; it exists exactly while `isGenerating` is set. */
  class GeneratorPage {
    var generatedImages: seq<ImageItem>
    var isGenerating: bool
    var gallery: seq<ImageItem>
    var pending: Option<string>

    ghost predicate Valid()
      reads this
    {
      |gallery| <= GalleryCap && (isGenerating <==> pending.Some?)
    }

    constructor ()
      ensures Valid()
      ensures generatedImages == [] && !isGenerating && gallery == [] && pending == None
    {
      generatedImages := [];
      isGenerating := false;
      gallery := [];
      pending := None;
    }

    method AddToGallery(item: ImageItem)
      requires Valid()
      modifies this`gallery
      ensures Valid()
      ensures gallery == GalleryAfterAdd(old(gallery), item)
    {
      gallery := [item] + gallery;
      if |gallery| > GalleryCap {
        gallery := gallery[..|gallery| - 1];
      }
    }

    /** Put the item first, keep the newest ten, and write the list to
        storage. `quotaError` is the error `setItem` throws when storage is
        full; the list in memory has changed by then. */
    method SaveToLocalStorage(item: ImageItem, store: LocalStorage, quotaError: Option<string>)
      returns (thrown: Option<string>)
      modifies this`generatedImages, store
      ensures generatedImages == SavedList(old(generatedImages), item)
      ensures thrown == quotaError
      ensures store.entries ==
        if quotaError.None? then old(store.entries)[StorageKey := ImageList(generatedImages)]
        else old(store.entries)
    {
      generatedImages := [item] + generatedImages;
      if |generatedImages| > MaxSaved {
        generatedImages := generatedImages[..MaxSaved];
      }
      if quotaError.None? {
        store.SetItem(StorageKey, ImageList(generatedImages));
      }
      thrown := quotaError;
    }

    /** Restore the saved list and render each item in turn; a stored value
        that does not parse is removed. */
    method LoadSavedImages(store: LocalStorage)
      requires Valid()
      modifies this`generatedImages, this`gallery, store
      ensures Valid() && isGenerating == old(isGenerating) && pending == old(pending)
      ensures
        var saved := old(store.GetItem(StorageKey));
        if !IsTruthy(saved) then
          generatedImages == old(generatedImages) && gallery == old(gallery)
          && store.entries == old(store.entries)
        else match ParseImageList(saved.value)
          case Some(items) =>
            generatedImages == items && gallery == GalleryAfterLoad(old(gallery), items)
            && store.entries == old(store.entries)
          case None =>
            generatedImages == old(generatedImages) && gallery == old(gallery)
            && store.entries == old(store.entries) - {StorageKey}
    {
      var saved := store.GetItem(StorageKey);
      if IsTruthy(saved) {
        match ParseImageList(saved.value)
        case Some(items) =>
          generatedImages := items;
          var i := 0;
          while i < |items|
            invariant 0 <= i <= |items|
            invariant Valid() && generatedImages == items && store.entries == old(store.entries)
            invariant gallery == GalleryAfterLoad(old(gallery), items[..i])
          {
            assert items[..i + 1][..i] == items[..i];
            AddToGallery(items[i]);
            i := i + 1;
          }
          assert items[..|items|] == items;
        case None =>
          store.RemoveItem(StorageKey);
      }
    }

    /** The corrected load (see ReloadThenGenerateDiverges): render the saved
        items oldest first, so the gallery shows them newest first, as the
        saved list holds them. */
    method LoadSavedImagesNewestFirst(store: LocalStorage)
      requires Valid() && gallery == []
      modifies this`generatedImages, this`gallery, store
      ensures Valid() && isGenerating == old(isGenerating) && pending == old(pending)
      ensures
        var saved := old(store.GetItem(StorageKey));
        if IsTruthy(saved) && ParseImageList(saved.value).Some? then
          generatedImages == ParseImageList(saved.value).value
          && gallery == Take(generatedImages, GalleryCap)
          && store.entries == old(store.entries)
        else
          generatedImages == old(generatedImages) && gallery == []
          && store.entries == (if IsTruthy(saved) then old(store.entries) - {StorageKey} else old(store.entries))
    {
      var saved := store.GetItem(StorageKey);
      if IsTruthy(saved) {
        match ParseImageList(saved.value)
        case Some(items) =>
          generatedImages := items;
          var i := |items|;
          while i > 0
            invariant 0 <= i <= |items|
            invariant Valid() && generatedImages == items && store.entries == old(store.entries)
            invariant gallery == Take(items[i..], GalleryCap)
          {
            i := i - 1;
            assert [items[i]] + items[i + 1..] == items[i..];
            TakeAppendTake([items[i]], items[i + 1..], GalleryCap);
            AddToGallery(items[i]);
          }
        case None =>
          store.RemoveItem(StorageKey);
      }
    }

    /** generateImage up to its await: check the prompt, then the guard,
        then raise the guard. The prompt is checked before the guard, so a
        bad prompt is reported even while a generation is in flight. */
    method BeginGeneration(promptValue: string) returns (r: Start)
      requires Valid()
      modifies this`isGenerating, this`pending
      ensures Valid()
      ensures r == match CheckPrompt(promptValue)
        case Refused(message) => Rejected(message)
        case Accepted(prompt) => if old(isGenerating) then Busy else Started(prompt)
      ensures r.Started? ==> isGenerating && pending == Some(r.prompt)
      ensures !r.Started? ==> isGenerating == old(isGenerating) && pending == old(pending)
    {
      match CheckPrompt(promptValue)
      case Refused(message) =>
        return Rejected(message);
      case Accepted(prompt) =>
        if isGenerating {
          return Busy;
        }
        isGenerating := true;
        pending := Some(prompt);
        r := Started(prompt);
    }

    /** generateImage after its await: act on the reply, then (the finally
        block) lower the guard whatever happened. */
    method FinishGeneration(reply: ProxyReply, store: LocalStorage, quotaError: Option<string>)
      returns (r: Completion)
      requires Valid() && pending.Some?
      modifies this`generatedImages, this`gallery, this`isGenerating, this`pending, store
      ensures Valid() && !isGenerating && pending == None
      ensures match Interpret(reply)
        case Show(imageData, timestamp) =>
          var item := ImageItem(imageData, old(pending).value, timestamp);
          && gallery == GalleryAfterAdd(old(gallery), item)
          && generatedImages == SavedList(old(generatedImages), item)
          && store.entries == (if quotaError.None? then old(store.entries)[StorageKey := ImageList(generatedImages)]
                               else old(store.entries))
          && r == (if quotaError.None? then Generated(item) else Failed(FailurePrefix + quotaError.value))
        case Fail(message) =>
          && gallery == old(gallery) && generatedImages == old(generatedImages)
          && store.entries == old(store.entries)
          && r == Failed(FailurePrefix + message)
    {
      var prompt := pending.value;
      match Interpret(reply) {
        case Show(imageData, timestamp) =>
          var item := ImageItem(imageData, prompt, timestamp);
          AddToGallery(item);
          var thrown := SaveToLocalStorage(item, store, quotaError);
          r := if thrown.None? then Generated(item) else Failed(FailurePrefix + thrown.value);
        case Fail(message) =>
          r := Failed(FailurePrefix + message);
      }
      isGenerating := false;
      pending := None;
    }

    /** A whole generation whose reply arrives before anything else runs. */
    method GenerateImage(promptValue: string, reply: ProxyReply, store: LocalStorage, quotaError: Option<string>)
      returns (start: Start, done: Option<Completion>)
      requires Valid()
      modifies this, store
      ensures Valid() && isGenerating == old(isGenerating) && pending == old(pending)
      ensures start == match CheckPrompt(promptValue)
        case Refused(message) => Rejected(message)
        case Accepted(prompt) => if old(isGenerating) then Busy else Started(prompt)
      ensures old(isGenerating) ==> !start.Started?
      ensures done.Some? <==> start.Started?
      ensures !start.Started? ==>
        generatedImages == old(generatedImages) && gallery == old(gallery)
        && store.entries == old(store.entries)
      ensures start.Started? ==> match Interpret(reply)
        case Show(imageData, timestamp) =>
          var item := ImageItem(imageData, start.prompt, timestamp);
          && gallery == GalleryAfterAdd(old(gallery), item)
          && generatedImages == SavedList(old(generatedImages), item)
          && store.entries == (if quotaError.None? then old(store.entries)[StorageKey := ImageList(generatedImages)]
                               else old(store.entries))
          && done == Some(if quotaError.None? then Generated(item) else Failed(FailurePrefix + quotaError.value))
        case Fail(message) =>
          && gallery == old(gallery) && generatedImages == old(generatedImages)
          && store.entries == old(store.entries)
          && done == Some(Failed(FailurePrefix + message))
    {
      start := BeginGeneration(promptValue);
      if start.Started? {
        var c := FinishGeneration(reply, store, quotaError);
        done := Some(c);
      } else {
        done := None;
      }
    }
  }
}
