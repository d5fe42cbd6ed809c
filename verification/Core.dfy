/**
 * Platforms and build targets of app-builder-lib (packages/app-builder-lib/src/core.ts):
 * the three platform constants, the case-insensitive name lookup and the
 * platform -> arch -> target-types map that `createTarget` builds.
 */
module Core {
  import opened Support

  /** builder-util's Arch enumeration. */
  datatype Arch = Ia32 | X64 | Armv7l | Arm64 | Universal

  /** The three `Platform` instances; their fields are fixed at construction. */
  datatype Platform = Mac | Linux | Windows {
    function Name(): string {
      match this
      case Mac => "mac"
      case Linux => "linux"
      case Windows => "windows"
    }

    function BuildConfigurationKey(): string {
      match this
      case Mac => "mac"
      case Linux => "linux"
      case Windows => "win"
    }

    function NodeName(): string {
      match this
      case Mac => "darwin"
      case Linux => "linux"
      case Windows => "win32"
    }

    /** `toString()` prints the platform's name, which `FromString` maps back to it. */
    function ToString(): (r: string)
      ensures r == Name()
      ensures FromString(r) == Success(this)
    {
      Name()
    }
  }

  /** The `type` argument of createTarget: absent or null, one type name, or a list of them. */
  datatype TargetType = NoType | OneType(name: string) | TypeList(names: seq<string>)

  /** The names `Platform.fromString` accepts, after lower-casing. */
  predicate KnownName(lowered: string) {
    lowered in {"darwin", "mac", "win32", "windows", "win", "linux"}
  }

  /**
   * Platform.fromString: the name is lower-cased, then matched against the node names and
   * names of MAC and WINDOWS, the build-configuration key of WINDOWS and the node name of
   * LINUX; anything else raises "Unknown platform: <lower-cased name>".
   */
  function FromString(name: string): (r: Result<Platform, string>)
    ensures r.Success? <==> KnownName(ToLower(name))
    ensures r == Success(Mac) <==> ToLower(name) in {"darwin", "mac"}
    ensures r == Success(Windows) <==> ToLower(name) in {"win32", "windows", "win"}
    ensures r == Success(Linux) <==> ToLower(name) == "linux"
    ensures r.Failure? ==> r.error == "Unknown platform: " + ToLower(name)
  {
    var lowered := ToLower(name);
    if lowered == "darwin" || lowered == "mac" then Success(Mac)
    else if lowered == "win32" || lowered == "windows" || lowered == "win" then Success(Windows)
    else if lowered == "linux" then Success(Linux)
    else Failure("Unknown platform: " + lowered)
  }

  /** Lower-casing first makes the lookup blind to letter case. */
  lemma FromStringCaseInsensitive(a: string, b: string)
    requires ToLower(a) == ToLower(b)
    ensures FromString(a) == FromString(b)
  {
  }

  /** Each of a platform's three names is looked up as that platform, in any letter case. */
  lemma FromStringRoundTrip(p: Platform, spelling: string)
    requires ToLower(spelling) in {p.Name(), p.BuildConfigurationKey(), p.NodeName()}
    ensures FromString(spelling) == Success(p)
  {
  }

  /**
   * Platform.createTarget: with no type and no archs the platform maps to an empty map;
   * otherwise each requested arch (the current one when none is given) maps to the type list.
   */
  method CreateTarget(platform: Platform, targetType: TargetType, archs: seq<Arch>, currentArch: Arch)
    returns (m: map<Platform, map<Arch, seq<string>>>)
    ensures m.Keys == {platform}
    ensures targetType == NoType && archs == [] ==> m[platform] == map[]
    ensures targetType != NoType || archs != [] ==>
              m[platform].Keys == (if archs == [] then {currentArch} else set a | a in archs)
    ensures targetType != NoType || archs != [] ==>
              forall a :: a in m[platform] ==>
                m[platform][a] == match targetType
                                  case NoType => []
                                  case OneType(t) => [t]
                                  case TypeList(ts) => ts
  {
    if targetType == NoType && archs == [] {
      return map[platform := map[]];
    }
    var types: seq<string> := match targetType
      case NoType => []
      case OneType(t) => [t]
      case TypeList(ts) => ts;
    var requested := if archs == [] then [currentArch] else archs;
    var archToType: map<Arch, seq<string>> := map[];
    for i := 0 to |requested|
      invariant archToType.Keys == set j | 0 <= j < i :: requested[j]
      invariant forall a :: a in archToType ==> archToType[a] == types
    {
      archToType := archToType[requested[i] := types];
    }
    assert archToType.Keys == set a | a in requested by {
      forall a | a in requested ensures a in archToType.Keys {
        var j :| 0 <= j < |requested| && requested[j] == a;
      }
    }
    m := map[platform := archToType];
  }
}
