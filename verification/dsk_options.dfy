/**
 * The options screen: how slider positions, combo-box selections and on/off
 * option groups are turned into stored settings, and how the list of
 * fullscreen resolutions is prepared.
 */
module DskOptions {
  import opened VideoModes
  import opened Arith

  datatype ProxyType = NoProxy | Socks4 | Socks5

  /** The controls whose messages the screen reacts to; any other control
      id is ignored by every handler. */
  datatype Control =
    | PgEffectsVol | PgMusicVol
    | CbLanguage | CbProxyType | CbResolution | CbFramerate | CbVideoDriver | CbAudioDriver
    | GrpIpv6 | GrpFullscreen | GrpVBO | GrpOptTextures | GrpMusic | GrpEffects
    | GrpDebugData | GrpUPNP | GrpSmartCursor | GrpGFInfo
    | OtherControl(id: nat)

  /** Button id of "on" inside an on/off option group. */
  const ID_BT_ON: nat := 1

  // The groups of the global settings object touched by this screen.
  datatype SoundSettings = SoundSettings(effectsVolume: nat, musicVolume: nat, musicEnabled: bool, effectsEnabled: bool)
  datatype ProxySettings = ProxySettings(proxyType: ProxyType)
  datatype ServerSettings = ServerSettings(ipv6: bool)
  datatype VideoSettings = VideoSettings(fullscreenSize: VideoMode, framerate: int, fullscreen: bool, vbo: bool, sharedTextures: bool)
  datatype DriverSettings = DriverSettings(video: string, audio: string)
  datatype GlobalSettings = GlobalSettings(submitDebugData: nat, useUpnp: bool, smartCursor: bool, showGFInfo: bool)

  /** The global settings object, one field per group. */
  class Settings {
    var sound: SoundSettings
    var proxy: ProxySettings
    var server: ServerSettings
    var video: VideoSettings
    var driver: DriverSettings
    var global: GlobalSettings

    constructor (sound: SoundSettings, proxy: ProxySettings, server: ServerSettings,
                 video: VideoSettings, driver: DriverSettings, global: GlobalSettings)
      ensures this.sound == sound && this.proxy == proxy && this.server == server
      ensures this.video == video && this.driver == driver && this.global == global
    {
      this.sound, this.proxy, this.server := sound, proxy, server;
      this.video, this.driver, this.global := video, driver, global;
    }
  }

  /** A volume slider position scaled from 0..100 to a byte, truncated to
      eight bits as the cast to uint8_t does. */
  function SliderToVolume(position: nat): (v: nat)
    requires position < 0x1_0000
    ensures v < 256
    ensures position <= 100 ==> v == position * 255 / 100
  {
    (position * 255 / 100) % 256
  }

  /** Within the slider's range the scaling is monotone and spans the whole
      byte: 0 gives 0 and 100 gives 255. */
  lemma {:induction false} SliderToVolumeMonotone(p: nat, q: nat)
    requires p <= q <= 100
    ensures SliderToVolume(p) <= SliderToVolume(q)
    ensures SliderToVolume(0) == 0 && SliderToVolume(100) == 255
  {
    assert p * 255 <= q * 255;
    DivMonotone(p * 255, q * 255, 100);
  }

  /** The proxy type chosen in the proxy combo box: entries 0, 1 and 2 are
      none, SOCKS4 and SOCKS5; any other entry keeps the current type. */
  function ProxyForSelection(selection: nat, current: ProxyType): (t: ProxyType)
    ensures selection == 0 ==> t == NoProxy
    ensures selection == 1 ==> t == Socks4
    ensures selection == 2 ==> t == Socks5
    ensures selection > 2 ==> t == current
  {
    if selection == 0 then NoProxy
    else if selection == 1 then Socks4
    else if selection == 2 then Socks5
    else current
  }

  /** Whether a framerate selection names an entry of the combo box: with
      VSync the first entry is the extra "VSync" entry. */
  predicate FramerateSelectable(selection: nat, hasVSync: bool, refreshRates: seq<int>) {
    if hasVSync then selection == 0 || selection - 1 < |refreshRates| else selection < |refreshRates|
  }

  /** The framerate stored for a framerate combo selection: with VSync entry
      0 means 0 and entry k the (k-1)-th refresh rate; without VSync entry k
      is the k-th refresh rate. */
  function FramerateForSelection(selection: nat, hasVSync: bool, refreshRates: seq<int>): (f: int)
    requires FramerateSelectable(selection, hasVSync, refreshRates)
    ensures hasVSync && selection == 0 ==> f == 0
    ensures hasVSync && selection > 0 ==> f == refreshRates[selection - 1]
    ensures !hasVSync ==> f == refreshRates[selection]
  {
    if hasVSync then (if selection == 0 then 0 else refreshRates[selection - 1])
    else refreshRates[selection]
  }

  /** The options screen and the mode list it shows. */
  class Options {
    var videoModes: seq<VideoMode>
    const settings: Settings
    /** The screen refresh rates offered in the framerate combo box. */
    const refreshRates: seq<int>

    constructor (settings: Settings, refreshRates: seq<int>)
      ensures this.settings == settings && this.refreshRates == refreshRates && videoModes == []
    {
      this.settings := settings;
      this.refreshRates := refreshRates;
      videoModes := [];
    }

    /** The list of fullscreen modes: the driver's modes without those below
        800x600 in both sides, sorted by CmpVideoModes. */
    method LoadVideoModes(listed: seq<VideoMode>)
      modifies this
      ensures AllHaveRatio(videoModes) && SortedModes(videoModes)
      ensures multiset(videoModes) == multiset(KeptModes(listed))
      ensures forall vm :: vm in videoModes <==> vm in listed && KeptMode(vm)
    {
      videoModes := KeptModes(listed);
      SortModesSorted(videoModes);
      videoModes := SortModes(videoModes);
      assert forall vm :: vm in videoModes <==> vm in multiset(KeptModes(listed));
    }

    /** A volume slider moved: the matching volume becomes the scaled
        position; other sliders change nothing. */
    method MsgGroupProgressChange(ctrl: Control, position: nat)
      requires position < 0x1_0000
      modifies settings
      ensures ctrl == PgEffectsVol ==> settings.sound == old(settings.sound).(effectsVolume := SliderToVolume(position))
      ensures ctrl == PgMusicVol ==> settings.sound == old(settings.sound).(musicVolume := SliderToVolume(position))
      ensures ctrl != PgEffectsVol && ctrl != PgMusicVol ==> settings.sound == old(settings.sound)
      ensures unchanged(settings`proxy, settings`server, settings`video, settings`driver, settings`global)
    {
      match ctrl
      case PgEffectsVol =>
        settings.sound := settings.sound.(effectsVolume := SliderToVolume(position));
      case PgMusicVol =>
        settings.sound := settings.sound.(musicVolume := SliderToVolume(position));
      case _ =>
    }

    /** A combo box entry chosen.  `comboText` is the text of the chosen
        entry, which the driver combo boxes store. */
    method MsgGroupComboSelectItem(ctrl: Control, selection: nat, hasVSync: bool, comboText: string)
      requires ctrl == CbResolution ==> selection < |videoModes|
      requires ctrl == CbFramerate ==> FramerateSelectable(selection, hasVSync, refreshRates)
      modifies settings
      ensures ctrl == CbProxyType ==>
                settings.proxy.proxyType == ProxyForSelection(selection, old(settings.proxy.proxyType))
      ensures ctrl == CbProxyType ==>
                settings.server.ipv6 == (old(settings.server.ipv6) && settings.proxy.proxyType != Socks4)
      ensures ctrl == CbResolution ==> settings.video == old(settings.video).(fullscreenSize := videoModes[selection])
      ensures ctrl == CbFramerate ==>
                settings.video == old(settings.video).(framerate := FramerateForSelection(selection, hasVSync, refreshRates))
      ensures ctrl == CbVideoDriver ==> settings.driver == old(settings.driver).(video := comboText)
      ensures ctrl == CbAudioDriver ==> settings.driver == old(settings.driver).(audio := comboText)
      ensures ctrl != CbProxyType ==> settings.proxy == old(settings.proxy) && settings.server == old(settings.server)
      ensures ctrl != CbResolution && ctrl != CbFramerate ==> settings.video == old(settings.video)
      ensures ctrl != CbVideoDriver && ctrl != CbAudioDriver ==> settings.driver == old(settings.driver)
      ensures unchanged(settings`sound, settings`global)
    {
      match ctrl
      case CbProxyType =>
        settings.proxy := settings.proxy.(proxyType := ProxyForSelection(selection, settings.proxy.proxyType));
        if settings.proxy.proxyType == Socks4 && settings.server.ipv6 {
          settings.server := settings.server.(ipv6 := false);
        }
      case CbResolution =>
        settings.video := settings.video.(fullscreenSize := videoModes[selection]);
      case CbFramerate =>
        settings.video := settings.video.(framerate := FramerateForSelection(selection, hasVSync, refreshRates));
      case CbVideoDriver =>
        settings.driver := settings.driver.(video := comboText);
      case CbAudioDriver =>
        settings.driver := settings.driver.(audio := comboText);
      case _ =>
    }

    /** An on/off option group changed: the matching flag becomes
        `selection == 1`; the debug-data group stores the selection itself
        (0 unset, 1 on, 2 ask). */
    method MsgGroupOptionGroupChange(ctrl: Control, selection: nat)
      modifies settings
      ensures var enabled := selection == ID_BT_ON;
        && (ctrl == GrpIpv6 ==> settings.server == old(settings.server).(ipv6 := enabled))
        && (ctrl == GrpFullscreen ==> settings.video == old(settings.video).(fullscreen := enabled))
        && (ctrl == GrpVBO ==> settings.video == old(settings.video).(vbo := enabled))
        && (ctrl == GrpOptTextures ==> settings.video == old(settings.video).(sharedTextures := enabled))
        && (ctrl == GrpMusic ==> settings.sound == old(settings.sound).(musicEnabled := enabled))
        && (ctrl == GrpEffects ==> settings.sound == old(settings.sound).(effectsEnabled := enabled))
        && (ctrl == GrpDebugData ==> settings.global == old(settings.global).(submitDebugData := selection))
        && (ctrl == GrpUPNP ==> settings.global == old(settings.global).(useUpnp := enabled))
        && (ctrl == GrpSmartCursor ==> settings.global == old(settings.global).(smartCursor := enabled))
        && (ctrl == GrpGFInfo ==> settings.global == old(settings.global).(showGFInfo := enabled))
      ensures ctrl != GrpIpv6 ==> settings.server == old(settings.server)
      ensures ctrl !in {GrpFullscreen, GrpVBO, GrpOptTextures} ==> settings.video == old(settings.video)
      ensures ctrl !in {GrpMusic, GrpEffects} ==> settings.sound == old(settings.sound)
      ensures ctrl !in {GrpDebugData, GrpUPNP, GrpSmartCursor, GrpGFInfo} ==> settings.global == old(settings.global)
      ensures unchanged(settings`proxy, settings`driver)
    {
      var enabled := selection == ID_BT_ON;
      match ctrl
      case GrpIpv6 => settings.server := settings.server.(ipv6 := enabled);
      case GrpFullscreen => settings.video := settings.video.(fullscreen := enabled);
      case GrpVBO => settings.video := settings.video.(vbo := enabled);
      case GrpOptTextures => settings.video := settings.video.(sharedTextures := enabled);
      case GrpMusic => settings.sound := settings.sound.(musicEnabled := enabled);
      case GrpEffects => settings.sound := settings.sound.(effectsEnabled := enabled);
      case GrpDebugData => settings.global := settings.global.(submitDebugData := selection);
      case GrpUPNP => settings.global := settings.global.(useUpnp := enabled);
      case GrpSmartCursor => settings.global := settings.global.(smartCursor := enabled);
      case GrpGFInfo => settings.global := settings.global.(showGFInfo := enabled);
      case _ =>
    }
  }
}
