/**
 * `HotkeyService`: registering the global edit-mode hotkey with the operating system, and
 * recognising its message. `RegisterHotKey` is an oracle whose answer is a parameter; the
 * hotkeys the system holds for the service, one per window at most, are part of the modelled
 * state.
 */
module Hotkeys {
  import opened Wrappers
  import opened Text
  import opened Settings

  /** `HOTKEY_ID_EDIT_TOGGLE`, the id the hotkey is registered under. */
  const HotkeyId := 0x0001
  /** The Win32 message a registered hotkey sends. */
  const WM_HOTKEY := 0x0312
  /** Win32 `MOD_NOREPEAT`: holding the keys down does not repeat the message. */
  const MOD_NOREPEAT: bv32 := 0x4000

  /** The C# `(uint)` cast of an `int`: two's-complement wrap-around. */
  function ToUInt32(x: Int32): (u: nat)
    ensures u < 0x1_0000_0000
    ensures x >= 0 ==> u == x
  {
    if x < 0 then x + 0x1_0000_0000 else x
  }

  /** The modifier flags passed to `RegisterHotKey`: the configured ones with `MOD_NOREPEAT` added. */
  function WithNoRepeat(modifiers: Int32): bv32 {
    (ToUInt32(modifiers) as bv32) | MOD_NOREPEAT
  }

  /** A hotkey the system holds: the window it posts to, its id, modifier flags and key code. */
  datatype Registration = Registration(hwnd: int, id: int, modifiers: bv32, key: nat)

  /** What `RegisterHotKey` answers: success, or failure with the thread's last Win32 error. */
  datatype NativeResult = Succeeded | FailedWith(errorCode: int)

  /** `LastError` after a failed registration. */
  function FailureMessage(errorCode: int): string {
    "ホットキーの登録に失敗しました（エラーコード: " + IntToString(errorCode)
      + "）。\n他のアプリがこのキーを使用している可能性があります。"
  }

  /** The fields of the service. */
  datatype HotkeyState = HotkeyState(
    hookHwnd: int,                // _hookHwnd; 0 is IntPtr.Zero
    hooked: bool,                 // _hwndSource != null, with WndProc added as its hook
    settings: HotkeySettings,     // _settings
    isRegistered: bool,           // IsRegistered
    lastError: Option<string>,    // LastError
    isDisposed: bool,             // _isDisposed
    presses: nat,                 // how many times HotkeyPressed has been raised
    system: map<int, Registration>) // the hotkeys the system holds for the service, by window

  /** The request `Register` makes: the window, the id, the modifiers with no-repeat, the key. */
  function Request(s: HotkeyState): Registration {
    Registration(s.hookHwnd, HotkeyId, WithNoRepeat(s.settings.modifiers), ToUInt32(s.settings.key))
  }

  /**
   * `IsRegistered` tells whether the system holds the hotkey for the window in use, and the
   * system holds no hotkey for the service on any other window.
   */
  predicate Valid(s: HotkeyState) {
    (s.isRegistered <==> s.hookHwnd in s.system)
    && s.system.Keys <= {s.hookHwnd}
    && (s.isRegistered ==> s.hookHwnd != 0 && s.system[s.hookHwnd].hwnd == s.hookHwnd
                           && s.system[s.hookHwnd].id == HotkeyId)
  }

  /** A new service: no window, the default hotkey settings, nothing registered. */
  function Fresh(): HotkeyState {
    HotkeyState(0, false, DefaultHotkey, false, None, false, 0, map[])
  }

  /** `Unregister`: `UnregisterHotKey` on the window in use drops only what the system holds for that window. */
  function Unregistered(s: HotkeyState): HotkeyState {
    if s.hookHwnd != 0 && s.isRegistered then s.(isRegistered := false, system := s.system - {s.hookHwnd}) else s
  }

  function AfterRegister(s: HotkeyState, native: NativeResult): HotkeyState {
    if s.hookHwnd == 0 then s
    else
      var u := Unregistered(s);
      match native
      case Succeeded => u.(isRegistered := true, lastError := None, system := u.system[u.hookHwnd := Request(u)])
      case FailedWith(code) => u.(isRegistered := false, lastError := Some(FailureMessage(code)))
  }

  /** What `Register` returns. */
  function RegisterResult(s: HotkeyState, native: NativeResult): bool {
    s.hookHwnd != 0 && native.Succeeded?
  }

  function SettingsUpdated(s: HotkeyState, newSettings: HotkeySettings, native: NativeResult): HotkeyState {
    var t := s.(settings := newSettings);
    if newSettings.enabled then AfterRegister(t, native) else Unregistered(t).(lastError := None)
  }

  /** `sourceFound` is whether `HwndSource.FromHwnd` found a source for the window. */
  function Initialized(s: HotkeyState, hwnd: int, settings: HotkeySettings, sourceFound: bool,
                       native: NativeResult): HotkeyState
  {
    var t := s.(hookHwnd := hwnd, settings := settings, hooked := sourceFound);
    if sourceFound && settings.enabled then AfterRegister(t, native) else t
  }

  function Disposed(s: HotkeyState): HotkeyState {
    if s.isDisposed then s else Unregistered(s.(isDisposed := true)).(hooked := false)
  }

  /** The hook reacts to `WM_HOTKEY` carrying the service's id, and to nothing else. */
  predicate IsHotkeyMessage(msg: int, wParam: int) {
    msg == WM_HOTKEY && wParam == HotkeyId
  }

  /** The state after the hook sees one message. */
  function MessageSeen(s: HotkeyState, msg: int, wParam: int): HotkeyState {
    if IsHotkeyMessage(msg, wParam) then s.(presses := s.presses + 1) else s
  }

  // ---------------------------------------------------------------------------------------------
  // Properties of the transitions
  // ---------------------------------------------------------------------------------------------

  lemma FreshValid()
    ensures Valid(Fresh()) && !Fresh().isRegistered && Fresh().lastError.None?
    ensures Fresh().settings == DefaultHotkey
  {
  }

  /** Without a window, `Register` fails and changes nothing. */
  lemma RegisterWithoutWindow(s: HotkeyState, native: NativeResult)
    requires s.hookHwnd == 0
    ensures AfterRegister(s, native) == s && !RegisterResult(s, native)
  {
  }

  /**
   * With a window, `Register` drops any earlier registration and then holds exactly the
   * requested hotkey on success, with no error; on failure nothing is held and the error says
   * why. Only the registration fields change.
   */
  lemma RegisterOutcome(s: HotkeyState, native: NativeResult)
    requires Valid(s) && s.hookHwnd != 0
    ensures var r := AfterRegister(s, native);
            Valid(r) && (r.isRegistered <==> RegisterResult(s, native))
            && r.hookHwnd == s.hookHwnd && r.hooked == s.hooked && r.settings == s.settings
            && r.isDisposed == s.isDisposed && r.presses == s.presses
    ensures native.Succeeded? ==>
              var r := AfterRegister(s, native);
              r.isRegistered && r.lastError.None? && r.system == map[s.hookHwnd := Request(s)]
    ensures native.FailedWith? ==>
              var r := AfterRegister(s, native);
              !r.isRegistered && r.lastError == Some(FailureMessage(native.errorCode)) && r.system == map[]
  {
  }

  /** Registering again with the same settings holds the same single hotkey. */
  lemma RegisterAgain(s: HotkeyState)
    requires Valid(s) && s.hookHwnd != 0
    ensures AfterRegister(AfterRegister(s, Succeeded), Succeeded) == AfterRegister(s, Succeeded)
  {
  }

  /** Afterwards nothing is registered; only the registration fields change. */
  lemma UnregisterOutcome(s: HotkeyState)
    requires Valid(s)
    ensures var r := Unregistered(s);
            Valid(r) && !r.isRegistered && r.system == map[]
            && r == s.(isRegistered := false, system := map[])
  {
  }

  /** Disabling leaves no hotkey and no error; enabling registers with the new settings. */
  lemma UpdateSettingsOutcome(s: HotkeyState, newSettings: HotkeySettings, native: NativeResult)
    requires Valid(s)
    ensures Valid(SettingsUpdated(s, newSettings, native))
    ensures SettingsUpdated(s, newSettings, native).settings == newSettings
    ensures !newSettings.enabled ==>
              var r := SettingsUpdated(s, newSettings, native);
              !r.isRegistered && r.system == map[] && r.lastError.None?
    ensures newSettings.enabled ==>
              SettingsUpdated(s, newSettings, native) == AfterRegister(s.(settings := newSettings), native)
  {
    var t := s.(settings := newSettings);
    assert Valid(t);
    if newSettings.enabled && t.hookHwnd != 0 {
      RegisterOutcome(t, native);
    }
  }

  /**
   * `Initialize` registers only when a source was found for the window and the settings are
   * enabled; otherwise the registration fields are as they were. Starting from nothing
   * registered, the result is consistent.
   */
  lemma InitializeOutcome(s: HotkeyState, hwnd: int, settings: HotkeySettings, sourceFound: bool,
                          native: NativeResult)
    requires Valid(s) && !s.isRegistered
    ensures var r := Initialized(s, hwnd, settings, sourceFound, native);
            Valid(r) && r.hookHwnd == hwnd && r.settings == settings && r.hooked == sourceFound
    ensures !(sourceFound && settings.enabled) ==>
              var r := Initialized(s, hwnd, settings, sourceFound, native);
              !r.isRegistered && r.lastError == s.lastError
    ensures sourceFound && settings.enabled ==>
              var r := Initialized(s, hwnd, settings, sourceFound, native);
              (r.isRegistered <==> hwnd != 0 && native.Succeeded?)
  {
    var t := s.(hookHwnd := hwnd, settings := settings, hooked := sourceFound);
    assert Valid(t);
    if sourceFound && settings.enabled && hwnd != 0 {
      RegisterOutcome(t, native);
    }
  }

  /** Initialising again on the window in use keeps the state consistent. */
  lemma InitializeSameWindow(s: HotkeyState, settings: HotkeySettings, sourceFound: bool, native: NativeResult)
    requires Valid(s)
    ensures var r := Initialized(s, s.hookHwnd, settings, sourceFound, native);
            Valid(r) && r.settings == settings && r.hooked == sourceFound
    ensures !(sourceFound && settings.enabled) ==>
              Initialized(s, s.hookHwnd, settings, sourceFound, native).system == s.system
  {
    var t := s.(settings := settings, hooked := sourceFound);
    assert Valid(t);
    if sourceFound && settings.enabled && s.hookHwnd != 0 {
      RegisterOutcome(t, native);
    }
  }

  /**
   * Initialising a registered service on another window leaks the old hotkey: `Unregister`
   * asks the system to drop the hotkey of the new window, so the old window's stays held. With
   * no registration on the new window, `IsRegistered` stays true although the system holds
   * nothing for that window; a successful registration leaves the system holding two. That
   * last case needs the new settings to name a different key combination: Win32 refuses a
   * combination another window still holds, so `native` is then a failure.
   */
  lemma InitializeOtherWindowLeaks(s: HotkeyState, hwnd: int, settings: HotkeySettings, sourceFound: bool,
                                   native: NativeResult)
    requires Valid(s) && s.isRegistered && hwnd != s.hookHwnd
    ensures var r := Initialized(s, hwnd, settings, sourceFound, native);
            s.hookHwnd in r.system && r.system[s.hookHwnd] == s.system[s.hookHwnd] && !Valid(r)
    ensures !(sourceFound && settings.enabled) ==>
              var r := Initialized(s, hwnd, settings, sourceFound, native);
              r.isRegistered && hwnd !in r.system
    ensures sourceFound && settings.enabled && hwnd != 0 && native.Succeeded? ==>
              var r := Initialized(s, hwnd, settings, sourceFound, native);
              r.isRegistered && r.system.Keys == {s.hookHwnd, hwnd} && r.system[hwnd].hwnd == hwnd
  {
  }

  /** Disposing leaves nothing registered and no hook; disposing again changes nothing. */
  lemma DisposeOutcome(s: HotkeyState)
    requires Valid(s)
    ensures var r := Disposed(s);
            Valid(r) && r.isDisposed && Disposed(r) == r
    ensures !s.isDisposed ==>
              var r := Disposed(s);
              !r.isRegistered && r.system == map[] && !r.hooked
  {
  }

  /** The no-repeat flag is set, and the four MOD_ALT/CONTROL/SHIFT/WIN bits are passed on as configured. */
  lemma NoRepeatRequest(modifiers: Int32)
    ensures WithNoRepeat(modifiers) & MOD_NOREPEAT == MOD_NOREPEAT
    ensures WithNoRepeat(modifiers) & 0xF == (ToUInt32(modifiers) as bv32) & 0xF
  {
  }

  /** The default hotkey Ctrl+Alt+E is requested as modifiers 0x4003 and key 0x45. */
  lemma DefaultRequest()
    ensures WithNoRepeat(DefaultHotkey.modifiers) == 0x4003 && ToUInt32(DefaultHotkey.key) == 0x45
  {
  }

  // ---------------------------------------------------------------------------------------------
  // The service
  // ---------------------------------------------------------------------------------------------

  class HotkeyService {
    var hookHwnd: int
    var hooked: bool
    var settings: HotkeySettings
    var isRegistered: bool
    var lastError: Option<string>
    var isDisposed: bool
    var presses: nat
    var system: map<int, Registration>

    function State(): HotkeyState
      reads this
    {
      HotkeyState(hookHwnd, hooked, settings, isRegistered, lastError, isDisposed, presses, system)
    }

    constructor ()
      ensures State() == Fresh()
    {
      hookHwnd, hooked, settings := 0, false, DefaultHotkey;
      isRegistered, lastError, isDisposed, presses, system := false, None, false, 0, map[];
    }

    method Initialize(hwnd: int, newSettings: HotkeySettings, sourceFound: bool, native: NativeResult)
      modifies this
      ensures State() == Initialized(old(State()), hwnd, newSettings, sourceFound, native)
    {
      hookHwnd := hwnd;
      settings := newSettings;
      hooked := sourceFound;
      if !sourceFound {
        return;
      }
      if newSettings.enabled {
        var ok := Register(native);
      }
    }

    /** `native` is the answer `RegisterHotKey` gives if it is called. */
    method Register(native: NativeResult) returns (success: bool)
      modifies this
      ensures State() == AfterRegister(old(State()), native)
      ensures success == RegisterResult(old(State()), native)
    {
      if hookHwnd == 0 {
        return false;
      }
      Unregister();
      var request := Registration(hookHwnd, HotkeyId, WithNoRepeat(settings.modifiers), ToUInt32(settings.key));
      success := native.Succeeded?;
      if success {
        isRegistered := true;
        lastError := None;
        system := system[hookHwnd := request];
      } else {
        isRegistered := false;
        lastError := Some(FailureMessage(native.errorCode));
      }
    }

    method Unregister()
      modifies this
      ensures State() == Unregistered(old(State()))
    {
      if hookHwnd != 0 && isRegistered {
        system := system - {hookHwnd};
        isRegistered := false;
      }
    }

    method UpdateSettings(newSettings: HotkeySettings, native: NativeResult)
      modifies this
      ensures State() == SettingsUpdated(old(State()), newSettings, native)
    {
      settings := newSettings;
      if newSettings.enabled {
        var ok := Register(native);
      } else {
        Unregister();
        lastError := None;
      }
    }

    /** The message hook: returns 0, and marks `WM_HOTKEY` for the service's id handled, raising `HotkeyPressed`. */
    method WndProc(msg: int, wParam: int, handled: bool) returns (result: int, handledOut: bool)
      modifies this
      ensures State() == MessageSeen(old(State()), msg, wParam)
      ensures result == 0 && handledOut == (handled || IsHotkeyMessage(msg, wParam))
    {
      handledOut := handled;
      if msg == WM_HOTKEY && wParam == HotkeyId {
        handledOut := true;
        presses := presses + 1;
      }
      return 0, handledOut;
    }

    method Dispose()
      modifies this
      ensures State() == Disposed(old(State()))
    {
      if isDisposed {
        return;
      }
      isDisposed := true;
      Unregister();
      if hooked {
        hooked := false;
      }
    }
  }
}
