/** Font resolution: which font file a family name and size resolve to.
    The file system and the font parser are abstract: `present` is
    `os.path.exists`, `opens` says whether `ImageFont.truetype` accepts a file
    at a size, `resourcePath` is the bundle-relative path helper, and
    `localFont` names a file in the per-user font folder. */
module Fonts {
  import opened Text

  datatype Font = TrueType(path: string, size: int) | Builtin

  datatype FontEnv = FontEnv(
    present: string -> bool,
    opens: (string, int) -> bool,
    resourcePath: string -> string,
    localFont: string -> string)

  /** A file to try: the path checked for existence and the path handed to
      the font parser (the loaders test one and open the other). */
  datatype Candidate = Candidate(check: string, load: string)

  /** A candidate loads when its checked path exists and the parser accepts
      its load path; the empty path never exists. */
  predicate Loadable(env: FontEnv, c: Candidate, size: int) {
    c.check != "" && env.present(c.check) && env.opens(c.load, size)
  }

  /** The first loadable candidate, in list order. */
  function FirstLoadable(env: FontEnv, cs: seq<Candidate>, size: int): (r: Option<Font>)
    ensures r.None? <==> forall k :: 0 <= k < |cs| ==> !Loadable(env, cs[k], size)
    ensures r.Some? ==> exists k :: 0 <= k < |cs| && Loadable(env, cs[k], size) &&
                         r.value == TrueType(cs[k].load, size) &&
                         forall j :: 0 <= j < k ==> !Loadable(env, cs[j], size)
  {
    if cs == [] then None
    else if Loadable(env, cs[0], size) then Some(TrueType(cs[0].load, size))
    else
      var r := FirstLoadable(env, cs[1..], size);
      assert forall k :: 1 <= k < |cs| ==> cs[k] == cs[1..][k - 1];
      r
  }

  /** Candidates whose path is both checked and opened as given. */
  function Plain(paths: seq<string>): (cs: seq<Candidate>)
    ensures |cs| == |paths| && forall k :: 0 <= k < |cs| ==> cs[k] == Candidate(paths[k], paths[k])
  {
    if paths == [] then [] else [Candidate(paths[0], paths[0])] + Plain(paths[1..])
  }

  /** Candidates checked as given and opened through the bundle path. */
  function Bundled(env: FontEnv, paths: seq<string>): (cs: seq<Candidate>)
    ensures |cs| == |paths| && forall k :: 0 <= k < |cs| ==> cs[k] == Candidate(paths[k], env.resourcePath(paths[k]))
  {
    if paths == [] then [] else [Candidate(paths[0], env.resourcePath(paths[0]))] + Bundled(env, paths[1..])
  }

  /** The six system families and their files. The main window's own copy of
      the loader (`readerCopy`) also tries an e-book reader's NanumGothic. */
  function FamilyPaths(env: FontEnv, family: string, readerCopy: bool): seq<string>
  {
    var rp := env.resourcePath;
    if family == "Arial" then ["fonts/arial.ttf", "C:/Windows/Fonts/arial.ttf"]
    else if family == "Times New Roman" then ["fonts/times.ttf", "C:/Windows/Fonts/times.ttf"]
    else if family == "Courier New" then ["fonts/cour.ttf", "C:/Windows/Fonts/cour.ttf"]
    else if family == "굴림" then [rp("fonts/gulim.ttc"), "C:/Windows/Fonts/gulim.ttc", "C:/Windows/Fonts/NGULIM.TTF"]
    else if family == "맑은 고딕" then
      [rp("fonts/malgun.ttf"), "C:/Windows/Fonts/malgun.ttf", "C:/Windows/Fonts/malgunbd.ttf", "C:/Windows/Fonts/malgunsl.ttf"]
    else if family == "나눔고딕" then
      if readerCopy then [rp("fonts/NanumGothic.ttf"), "C:/Booxen/BooxenEBook/reader/fonts/epub/NanumGothic.ttf", "C:/Windows/Fonts/NanumGothic.ttf"]
      else [rp("fonts/NanumGothic.ttf"), "C:/Windows/Fonts/NanumGothic.ttf"]
    else []
  }

  /** The eight fallback files, Korean fonts first. */
  function DefaultPaths(env: FontEnv): seq<string>
  {
    var rp := env.resourcePath;
    [rp("fonts/NanumGothic.ttf"), rp("fonts/malgun.ttf"), rp("fonts/gulim.ttc"),
     "C:/Windows/Fonts/NanumGothic.ttf", "C:/Windows/Fonts/malgun.ttf", "C:/Windows/Fonts/gulim.ttc",
     "C:/Windows/Fonts/batang.ttc", "C:/Windows/Fonts/dotum.ttc"]
  }

  /** The registered custom font of the family, if any. */
  function CustomCandidates(custom: map<string, string>, family: string): seq<Candidate>
  {
    if family in custom then [Candidate(custom[family], custom[family])] else []
  }

  /** The whole chain: custom registry, family files, eight defaults. */
  function OverlayCandidates(env: FontEnv, custom: map<string, string>, family: string, readerCopy: bool): seq<Candidate>
  {
    CustomCandidates(custom, family) + Bundled(env, FamilyPaths(env, family, readerCopy)) + Bundled(env, DefaultPaths(env))
  }

  /** `load_font_for_overlay`: the first loadable candidate of the chain, or
      the built-in bitmap font when none loads; it never fails. */
  function OverlayFont(env: FontEnv, custom: map<string, string>, family: string, size: int, readerCopy: bool): (f: Font)
    ensures var cs := OverlayCandidates(env, custom, family, readerCopy);
            (f == Builtin <==> forall k :: 0 <= k < |cs| ==> !Loadable(env, cs[k], size)) &&
            (f != Builtin ==> exists k :: 0 <= k < |cs| && Loadable(env, cs[k], size) &&
                                f == TrueType(cs[k].load, size) &&
                                forall j :: 0 <= j < k ==> !Loadable(env, cs[j], size))
  {
    match FirstLoadable(env, OverlayCandidates(env, custom, family, readerCopy), size)
    case Some(f) => f
    case None => Builtin
  }

  /** A loadable registered font wins over every system file. */
  lemma CustomFontFirst(env: FontEnv, custom: map<string, string>, family: string, size: int, readerCopy: bool)
    requires family in custom && Loadable(env, Candidate(custom[family], custom[family]), size)
    ensures OverlayFont(env, custom, family, size, readerCopy) == TrueType(custom[family], size)
  {
    var cs := OverlayCandidates(env, custom, family, readerCopy);
    assert cs[0] == Candidate(custom[family], custom[family]);
  }

  /** The source loop over one list, with its early return. */
  method TryPaths(env: FontEnv, cs: seq<Candidate>, size: int) returns (r: Option<Font>)
    ensures r == FirstLoadable(env, cs, size)
  {
    for k := 0 to |cs|
      invariant FirstLoadable(env, cs, size) == FirstLoadable(env, cs[k..], size)
    {
      assert cs[k..][1..] == cs[k + 1..];
      var c := cs[k];
      if c.check != "" && env.present(c.check) && env.opens(c.load, size) {
        return Some(TrueType(c.load, size));
      }
    }
    assert cs[|cs|..] == [];
    return None;
  }

  lemma {:induction false} FirstLoadableAppend(env: FontEnv, a: seq<Candidate>, b: seq<Candidate>, size: int)
    ensures FirstLoadable(env, a + b, size)
         == if FirstLoadable(env, a, size).Some? then FirstLoadable(env, a, size) else FirstLoadable(env, b, size)
  {
    if a != [] {
      assert (a + b)[1..] == a[1..] + b;
      FirstLoadableAppend(env, a[1..], b, size);
    } else {
      assert a + b == b;
    }
  }

  /** `load_font_for_overlay` as written: the custom registry, then the
      family's files, then the defaults, each with an early return. */
  method LoadFontForOverlay(env: FontEnv, custom: map<string, string>, family: string, size: int, readerCopy: bool)
    returns (f: Font)
    ensures f == OverlayFont(env, custom, family, size, readerCopy)
  {
    var cc := CustomCandidates(custom, family);
    var fc := Bundled(env, FamilyPaths(env, family, readerCopy));
    var dc := Bundled(env, DefaultPaths(env));
    FirstLoadableAppend(env, cc + fc, dc, size);
    FirstLoadableAppend(env, cc, fc, size);
    if family in custom {
      var path := custom[family];
      if path != "" && env.present(path) && env.opens(path, size) {
        return TrueType(path, size);
      }
    }
    var r := TryPaths(env, fc, size);
    if r.Some? {
      return r.value;
    }
    r := TryPaths(env, dc, size);
    if r.Some? {
      return r.value;
    }
    return Builtin;
  }

  /** The per-weight file lists of `_load_pil_font_with_bold`: regular,
      bold and extra-bold files for five families (empty for the others). */
  datatype WeightFiles = WeightFiles(base: seq<string>, bold: seq<string>, extra: seq<string>)

  function WeightPaths(env: FontEnv, family: string): WeightFiles
  {
    var lf := env.localFont;
    if family == "나눔고딕" || family == "NanumGothic" then
      WeightFiles([lf("NanumGothic.ttf"), env.resourcePath("fonts/NanumGothic.ttf")],
                  [lf("NanumGothicBold.ttf")],
                  [lf("NanumGothicExtraBold.ttf"), lf("NanumGothicBold.ttf")])
    else if family == "맑은 고딕" || family == "Malgun Gothic" then
      WeightFiles(["C:/Windows/Fonts/malgun.ttf", env.resourcePath("fonts/malgun.ttf")],
                  ["C:/Windows/Fonts/malgunbd.ttf"], ["C:/Windows/Fonts/malgunbd.ttf"])
    else if family == "굴림" || family == "Gulim" then
      WeightFiles(["C:/Windows/Fonts/gulim.ttc", env.resourcePath("fonts/gulim.ttc")],
                  ["C:/Windows/Fonts/gulim.ttc"], ["C:/Windows/Fonts/gulim.ttc"])
    else if family == "Arial" then
      WeightFiles(["C:/Windows/Fonts/arial.ttf"], ["C:/Windows/Fonts/arialbd.ttf"], ["C:/Windows/Fonts/arialbd.ttf"])
    else if family == "Times New Roman" then
      WeightFiles(["C:/Windows/Fonts/times.ttf"], ["C:/Windows/Fonts/timesbd.ttf"], ["C:/Windows/Fonts/timesbd.ttf"])
    else WeightFiles([], [], [])
  }

  /** Extra-bold files first at level 2, then bold files from level 1, then
      the regular files. */
  function WeightCandidates(env: FontEnv, family: string, level: int): (ps: seq<string>)
    ensures var w := WeightPaths(env, family);
            ps == (if level >= 2 then w.extra else []) + (if level >= 1 then w.bold else []) + w.base
  {
    var w := WeightPaths(env, family);
    (if level >= 2 then w.extra else []) + (if level >= 1 then w.bold else []) + w.base
  }

  /** `_load_pil_font_with_bold`: the first loadable weight file, otherwise
      the canvas's `load_font_for_overlay`. */
  function WeightedFont(env: FontEnv, custom: map<string, string>, family: string, size: int, level: int): (f: Font)
    ensures var cs := Plain(WeightCandidates(env, family, level));
            (FirstLoadable(env, cs, size).Some? ==> f == FirstLoadable(env, cs, size).value) &&
            (FirstLoadable(env, cs, size).None? ==> f == OverlayFont(env, custom, family, size, false))
  {
    match FirstLoadable(env, Plain(WeightCandidates(env, family, level)), size)
    case Some(f) => f
    case None => OverlayFont(env, custom, family, size, false)
  }

  /** At level 2 a loadable NanumGothic ExtraBold file wins over the bold and
      regular files; at level 0 no bold file is ever tried. */
  lemma WeightOrder(env: FontEnv, custom: map<string, string>, size: int)
    ensures var x := env.localFont("NanumGothicExtraBold.ttf");
            Loadable(env, Candidate(x, x), size) ==>
              WeightedFont(env, custom, "나눔고딕", size, 2) == TrueType(x, size)
    ensures WeightCandidates(env, "맑은 고딕", 0) == ["C:/Windows/Fonts/malgun.ttf", env.resourcePath("fonts/malgun.ttf")]
  {
    var cs := Plain(WeightCandidates(env, "나눔고딕", 2));
    assert cs[0] == Candidate(env.localFont("NanumGothicExtraBold.ttf"), env.localFont("NanumGothicExtraBold.ttf"));
  }

  /** The source's candidate loop with early return, then the fallback. */
  method LoadPilFontWithBold(env: FontEnv, custom: map<string, string>, family: string, size: int, level: int)
    returns (f: Font)
    ensures f == WeightedFont(env, custom, family, size, level)
  {
    var paths := WeightCandidates(env, family, level);
    var r := TryPaths(env, Plain(paths), size);
    if r.Some? {
      return r.value;
    }
    f := LoadFontForOverlay(env, custom, family, size, false);
  }
}
