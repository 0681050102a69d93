/**
 * The home page's own logic (app/page.tsx): the error-driven fallback for the decorative
 * background, the choice of what background to render, and the navigation to the
 * section named by the URL's hash on load.
 */
module Page {
  import opened Wrappers
  import opened Strings
  import ActiveSection

  /**
   * Whether a window `error` event concerns the background: it must carry a (non-empty)
   * message that mentions "three", "webgl", "canvas" or "undefined".
   */
  predicate IsBackgroundError(message: Option<string>)
  {
    && message.Some?
    && message.value != ""
    && (|| Includes(message.value, "three")
        || Includes(message.value, "webgl")
        || Includes(message.value, "canvas")
        || Includes(message.value, "undefined"))
  }

  /** The two flags `useFallback` and `backgroundError`. */
  datatype Flags = Flags(useFallback: bool, backgroundError: bool)

  const InitialFlags: Flags := Flags(false, false)

  /** What `renderBackground` returns. */
  datatype Background = Nothing | Simple3D | StaticFallback

  /** `backgroundError` takes precedence over `useFallback`; with neither, nothing is rendered. */
  function RenderBackground(f: Flags): (b: Background)
    ensures f.backgroundError ==> b == StaticFallback
    ensures !f.backgroundError && f.useFallback ==> b == Simple3D
    ensures b == Nothing <==> !f.backgroundError && !f.useFallback
  {
    if f.backgroundError then StaticFallback
    else if f.useFallback then Simple3D
    else Nothing
  }

  /** The error handler as a transition on the flags. */
  function OnError(f: Flags, message: Option<string>): (r: Flags)
    ensures !IsBackgroundError(message) ==> r == f
    ensures IsBackgroundError(message) && !f.useFallback ==> r == Flags(true, f.backgroundError)
    ensures IsBackgroundError(message) && f.useFallback ==> r == Flags(true, true)
  {
    if !IsBackgroundError(message) then f
    else if !f.useFallback then f.(useFallback := true)
    else f.(backgroundError := true)
  }

  /** How far the background has degraded: 0 none, 1 simple scene, 2 static. */
  function Degradation(f: Flags): nat
  {
    if f.backgroundError then 2 else if f.useFallback then 1 else 0
  }

  /** The flags after a sequence of error events. */
  function OnErrors(f: Flags, messages: seq<Option<string>>): Flags
    decreases |messages|
  {
    if messages == [] then f else OnErrors(OnError(f, messages[0]), messages[1..])
  }

  /** The number of events in `messages` that concern the background. */
  function CountBackgroundErrors(messages: seq<Option<string>>): nat
    decreases |messages|
  {
    if messages == [] then 0
    else (if IsBackgroundError(messages[0]) then 1 else 0) + CountBackgroundErrors(messages[1..])
  }

  /** Neither flag is ever cleared, so the degradation never decreases. */
  lemma {:induction false} FlagsNeverCleared(f: Flags, messages: seq<Option<string>>)
    ensures f.useFallback ==> OnErrors(f, messages).useFallback
    ensures f.backgroundError ==> OnErrors(f, messages).backgroundError
    ensures Degradation(OnErrors(f, messages)) >= Degradation(f)
    decreases |messages|
  {
    if messages != [] {
      FlagsNeverCleared(OnError(f, messages[0]), messages[1..]);
    }
  }

  /**
   * From the initial flags, the first background error switches to the simple scene and
   * the second to the static fallback; all other events are ignored.
   */
  lemma {:induction false} DegradationCountsErrors(messages: seq<Option<string>>)
    ensures Degradation(OnErrors(InitialFlags, messages)) == Min(2, CountBackgroundErrors(messages))
  {
    DegradationFrom(InitialFlags, messages);
  }

  function Min(a: nat, b: nat): nat { if a <= b then a else b }

  lemma {:induction false} DegradationFrom(f: Flags, messages: seq<Option<string>>)
    requires f.backgroundError ==> f.useFallback
    ensures OnErrors(f, messages).backgroundError ==> OnErrors(f, messages).useFallback
    ensures Degradation(OnErrors(f, messages)) == Min(2, Degradation(f) + CountBackgroundErrors(messages))
    decreases |messages|
  {
    if messages != [] {
      DegradationFrom(OnError(f, messages[0]), messages[1..]);
    }
  }

  /** The page's two background flags, flipped by the window `error` listener. */
  class BackgroundFallback {
    var useFallback: bool
    var backgroundError: bool

    function CurrentFlags(): Flags
      reads this
    {
      Flags(useFallback, backgroundError)
    }

    /** The static fallback is only reached through the simple scene. */
    ghost predicate Valid()
      reads this
    {
      backgroundError ==> useFallback
    }

    constructor ()
      ensures Valid() && CurrentFlags() == InitialFlags
      ensures RenderBackground(CurrentFlags()) == Nothing
    {
      useFallback := false;
      backgroundError := false;
    }

    /** `handleError`: the message of the event, None when the event has none. */
    method HandleError(message: Option<string>)
      requires Valid()
      modifies this
      ensures Valid()
      ensures CurrentFlags() == OnError(old(CurrentFlags()), message)
      ensures Degradation(CurrentFlags()) >= Degradation(old(CurrentFlags()))
    {
      if message.Some? && message.value != "" &&
         (Includes(message.value, "three") || Includes(message.value, "webgl") ||
          Includes(message.value, "canvas") || Includes(message.value, "undefined"))
      {
        if !useFallback {
          useFallback := true;
        } else {
          backgroundError := true;
        }
      }
    }
  }

  /** `hash.replace("#", "")`: only the first "#" is removed, wherever it is. */
  function RemoveFirstHash(hash: string): (id: string)
    ensures |id| == if '#' in hash then |hash| - 1 else |hash|
  {
    if hash == [] then []
    else if hash[0] == '#' then hash[1..]
    else [hash[0]] + RemoveFirstHash(hash[1..])
  }

  /** `id` is `hash` with the "#" at position i -- its first one -- cut out. */
  predicate CutAtFirstHash(hash: string, id: string, i: int)
  {
    0 <= i < |hash| && hash[i] == '#' && '#' !in hash[..i] && id == hash[..i] + hash[i + 1..]
  }

  /**
   * Without a "#" the string is kept; otherwise the result is the string with its first
   * "#" cut out, everything before and after it kept.
   */
  lemma {:induction false} RemoveFirstHashCutsFirst(hash: string)
    ensures '#' !in hash ==> RemoveFirstHash(hash) == hash
    ensures '#' in hash ==> exists i :: CutAtFirstHash(hash, RemoveFirstHash(hash), i)
  {
    if hash != [] {
      if hash[0] == '#' {
        assert hash[1..] == hash[..0] + hash[0 + 1..];
        assert CutAtFirstHash(hash, RemoveFirstHash(hash), 0);
      } else {
        var tail := hash[1..];
        assert hash == [hash[0]] + tail;
        RemoveFirstHashCutsFirst(tail);
        if '#' in hash {
          assert '#' in tail;
          var i :| CutAtFirstHash(tail, RemoveFirstHash(tail), i);
          CutBehind(hash[0], tail, RemoveFirstHash(tail), i);
          assert RemoveFirstHash(hash) == [hash[0]] + RemoveFirstHash(tail);
          assert CutAtFirstHash(hash, RemoveFirstHash(hash), i + 1);
        }
      }
    }
  }

  lemma CutBehind(c: char, tail: string, id: string, i: int)
    requires c != '#' && CutAtFirstHash(tail, id, i)
    ensures CutAtFirstHash([c] + tail, [c] + id, i + 1)
  {
    var hash := [c] + tail;
    assert hash[..i + 1] == [c] + tail[..i];
    assert hash[i + 1 + 1..] == tail[i + 1..];
  }

  /**
   * The section to navigate to on load: none when the hash is empty or no element has the
   * extracted id (`ids` holds the ids present in the document).
   */
  function HashTarget(hash: string, ids: set<string>): (r: Option<string>)
    ensures hash == "" ==> r == None
    ensures r.Some? <==> hash != "" && RemoveFirstHash(hash) in ids
    ensures r.Some? ==> r.value == RemoveFirstHash(hash)
  {
    if hash == "" then None
    else
      var id := RemoveFirstHash(hash);
      if id in ids then Some(id) else None
  }

  /**
   * A browser hash always starts with "#", which is exactly what is removed; any later "#"
   * stays in the id ("#a#b" looks up "a#b").
   */
  lemma HashOfLocation(name: string)
    ensures RemoveFirstHash("#" + name) == name
  {
  }

  /**
   * The load-time effect and its 100 ms timeout, run at time `now`: when the hash names an
   * element, the provider is told that section is active and that a click just happened.
   */
  method NavigateToHash(provider: ActiveSection.Provider, hash: string, ids: set<string>, now: int)
    modifies provider
    ensures HashTarget(hash, ids).None? ==>
      provider.activeSection == old(provider.activeSection) && provider.timeOfLastClick == old(provider.timeOfLastClick)
    ensures HashTarget(hash, ids).Some? ==>
      provider.activeSection == HashTarget(hash, ids).value && provider.timeOfLastClick == now
  {
    if hash != "" {
      var id := RemoveFirstHash(hash);
      if id in ids {
        provider.SetActiveSection(id);
        provider.SetTimeOfLastClick(now);
      }
    }
  }
}
