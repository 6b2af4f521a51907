/**
 * Site themes: the fixed presets, the normalisation every stored or received theme goes
 * through, the CSS variables a theme becomes, and the admin theme studio that edits a draft
 * theme and publishes it.
 *
 * A JavaScript field that is absent, null, undefined or otherwise falsy is written "" here,
 * so `a || b` on such a field is `Or(a, b)`.
 */
module Theme {
  import opened Wrappers

  /** The six colour keys a theme carries, in the order the studio visits them. */
  const ColorKeys: seq<string> := ["bg", "text", "accent", "border", "muted", "surface"]

  const ColorKeySet: set<string> := set k | k in ColorKeys

  datatype Theme = Theme(id: string, name: string, colors: map<string, string>, motion: string)

  /** Whatever normalizeTheme is handed: a value that is not an object, or an object whose
      fields may be falsy ("") and whose `colors` may be missing (None) or hold any keys. */
  datatype Incoming =
    | NotAnObject
    | Object(id: string, name: string, motion: string, colors: Option<map<string, string>>)

  const Default: Theme := Theme(
    "brutalist-classic", "Brutalist Classic",
    map["bg" := "#f5f7fb", "text" := "#0c1a2a", "accent" := "#7ec8e3",
        "border" := "#e5e5e5", "muted" := "#4c5766", "surface" := "#ffffff"],
    "subtle")

  const Presets: seq<Theme> := [
    Default,
    Theme("brutalist-warm", "Brutalist Warm",
          map["bg" := "#f9f5f0", "text" := "#231d1a", "accent" := "#d67c5c",
              "border" := "#d6c8bf", "muted" := "#6f6158", "surface" := "#ffffff"],
          "subtle"),
    Theme("cool-editorial", "Cool Editorial",
          map["bg" := "#f1f4f8", "text" := "#152235", "accent" := "#6aa6c8",
              "border" := "#d3d9e1", "muted" := "#516171", "surface" := "#ffffff"],
          "subtle"),
    Theme("night-mode", "Night Mode",
          map["bg" := "#0d1116", "text" := "#f3f4f6", "accent" := "#7ee0ff",
              "border" := "#2b333d", "muted" := "#c4c9d1", "surface" := "#161b22"],
          "reduced"),
    Theme("clean-minimal", "Clean Minimal",
          map["bg" := "#f6f6f4", "text" := "#1d1d1d", "accent" := "#6c6c6c",
              "border" := "#dcdcdc", "muted" := "#6e6e6e", "surface" := "#ffffff"],
          "subtle")
  ]

  /** JavaScript's `a || b` on two strings. */
  function Or(a: string, b: string): string {
    if a != "" then a else b
  }

  /** A theme as normalisation leaves it: every field truthy, and exactly the six colour
      keys, each with a truthy value. */
  predicate WellFormed(t: Theme) {
    && t.id != "" && t.name != "" && t.motion != ""
    && t.colors.Keys == ColorKeySet
    && (forall k :: k in t.colors ==> t.colors[k] != "")
  }

  /** A theme handed back to normalizeTheme, as the studio does with its own draft. */
  function Lift(t: Theme): Incoming {
    Object(t.id, t.name, t.motion, Some(t.colors))
  }

  /** The ColorKeys.forEach loops: visiting `keys` in order, every key that `base` already
      has and for which `src` holds a truthy value takes that value. */
  function Overlay(base: map<string, string>, src: map<string, string>, keys: seq<string>): map<string, string>
    decreases |keys|
  {
    if keys == [] then base
    else
      var prev := Overlay(base, src, keys[..|keys| - 1]);
      var k := keys[|keys| - 1];
      if k in prev && k in src && src[k] != "" then prev[k := src[k]] else prev
  }

  /** What Overlay does to one key: it keeps the keys of `base`, and a key takes the value of
      `src` exactly when it is visited and that value is truthy. */
  lemma {:induction false} OverlayAt(base: map<string, string>, src: map<string, string>, keys: seq<string>, k: string)
    ensures k in Overlay(base, src, keys) <==> k in base
    ensures k in base ==> Overlay(base, src, keys)[k]
                          == if k in keys && k in src && src[k] != "" then src[k] else base[k]
    decreases |keys|
  {
    if keys != [] {
      var init := keys[..|keys| - 1];
      OverlayAt(base, src, init, k);
      assert keys == init + [keys[|keys| - 1]];
      assert k in keys <==> k in init || k == keys[|keys| - 1];
    }
  }

  /** Overlay keeps the keys of `base` and never replaces a truthy value by a falsy one. */
  lemma OverlayKeepsKeys(base: map<string, string>, src: map<string, string>, keys: seq<string>)
    ensures forall k :: k in Overlay(base, src, keys) <==> k in base
    ensures forall k :: k in base && base[k] != "" ==> Overlay(base, src, keys)[k] != ""
  {
    forall k
      ensures k in Overlay(base, src, keys) <==> k in base
      ensures k in base && base[k] != "" ==> Overlay(base, src, keys)[k] != ""
    {
      OverlayAt(base, src, keys, k);
    }
  }

  /** normalizeTheme as a value: the default theme with every truthy incoming field laid over it. */
  function Normalized(t: Incoming): (r: Theme)
    ensures WellFormed(r)
  {
    match t
    case NotAnObject => Default
    case Object(id, name, motion, colors) =>
      OverlayKeepsKeys(Default.colors, colors.GetOr(map[]), ColorKeys);
      Theme(Or(id, Default.id), Or(name, Default.name),
            if colors.Some? then Overlay(Default.colors, colors.value, ColorKeys) else Default.colors,
            Or(motion, Default.motion))
  }

  /** True when the incoming value supplies a truthy colour for `k`. */
  predicate SuppliesColor(t: Incoming, k: string) {
    t.Object? && t.colors.Some? && k in t.colors.value && t.colors.value[k] != ""
  }

  /** What normalisation promises: a non-object yields the default; otherwise every field is
      the incoming one when truthy and the default's when not; the colours are exactly the six
      keys (any other key is dropped), each taken from the incoming value when it is truthy. */
  lemma NormalizeContract(t: Incoming)
    ensures WellFormed(Normalized(t))
    ensures t.NotAnObject? ==> Normalized(t) == Default
    ensures t.Object? ==> && Normalized(t).id == Or(t.id, Default.id)
                          && Normalized(t).name == Or(t.name, Default.name)
                          && Normalized(t).motion == Or(t.motion, Default.motion)
    ensures forall k :: k in Normalized(t).colors <==> k in ColorKeys
    ensures forall k :: k in ColorKeys ==>
              Normalized(t).colors[k] == if SuppliesColor(t, k) then t.colors.value[k] else Default.colors[k]
  {
    forall k
      ensures k in Normalized(t).colors <==> k in ColorKeys
      ensures k in ColorKeys ==> Normalized(t).colors[k] != ""
      ensures k in ColorKeys ==>
                Normalized(t).colors[k] == if SuppliesColor(t, k) then t.colors.value[k] else Default.colors[k]
    {
      if t.Object? && t.colors.Some? {
        OverlayAt(Default.colors, t.colors.value, ColorKeys, k);
      }
    }
  }

  /** A theme that is already normalised comes back unchanged. */
  lemma NormalizeFixesWellFormed(t: Theme)
    requires WellFormed(t)
    ensures Normalized(Lift(t)) == t
  {
    NormalizeContract(Lift(t));
    assert Normalized(Lift(t)).colors == t.colors;
  }

  /** Normalising twice is normalising once. */
  lemma NormalizeIdempotent(t: Incoming)
    ensures Normalized(Lift(Normalized(t))) == Normalized(t)
  {
    NormalizeContract(t);
    NormalizeFixesWellFormed(Normalized(t));
  }

  /** One of the colour loops: copies each truthy value of `src` onto a key `target` has. */
  method CopyTruthyColors(target: map<string, string>, src: map<string, string>) returns (r: map<string, string>)
    ensures r == Overlay(target, src, ColorKeys)
  {
    r := target;
    for i := 0 to |ColorKeys|
      invariant r == Overlay(target, src, ColorKeys[..i])
    {
      var key := ColorKeys[i];
      assert ColorKeys[..i + 1][..i] == ColorKeys[..i];
      if key in r && key in src && src[key] != "" {
        r := r[key := src[key]];
      }
    }
    assert ColorKeys[..|ColorKeys|] == ColorKeys;
  }

  /** normalizeTheme: start from a copy of the default and overwrite its fields. */
  method NormalizeTheme(theme: Incoming) returns (r: Theme)
    ensures r == Normalized(theme)
  {
    if theme.NotAnObject? {
      return Default;
    }
    var base := Default;
    base := base.(id := Or(theme.id, base.id));
    base := base.(name := Or(theme.name, base.name));
    base := base.(motion := Or(theme.motion, base.motion));
    if theme.colors.Some? {
      var colors := CopyTruthyColors(base.colors, theme.colors.value);
      base := base.(colors := colors);
    }
    r := base;
  }

  /** The first theme in `themes` with the given id, if any (`Array.prototype.find`). */
  function FindById(themes: seq<Theme>, id: string): (r: Option<Theme>)
    ensures r.Some? ==> r.value in themes && r.value.id == id
    ensures r.Some? ==> exists i :: 0 <= i < |themes| && themes[i] == r.value
                                    && forall j :: 0 <= j < i ==> themes[j].id != id
    ensures r.None? ==> forall i :: 0 <= i < |themes| ==> themes[i].id != id
    decreases |themes|
  {
    if themes == [] then None
    else if themes[0].id == id then Some(themes[0])
    else FindById(themes[1..], id)
  }

  lemma PresetsWellFormed()
    ensures forall i :: 0 <= i < |Presets| ==> WellFormed(Presets[i])
  {
  }

  /** getPresetById: the preset with that id, or the default theme when no preset has it. */
  function GetPresetById(id: string): (preset: Theme)
    ensures WellFormed(preset)
    ensures preset in Presets
    ensures (exists i :: 0 <= i < |Presets| && Presets[i].id == id) ==> preset.id == id
    ensures (forall i :: 0 <= i < |Presets| ==> Presets[i].id != id) ==> preset == Default
  {
    PresetsWellFormed();
    match FindById(Presets, id)
    case Some(p) => p
    case None => Default
  }

  /** The custom-property name of each colour key. */
  lemma ColorVarNames()
    ensures "--" + "bg" == "--bg" && "--" + "text" == "--text" && "--" + "accent" == "--accent"
    ensures "--" + "border" == "--border" && "--" + "muted" == "--muted" && "--" + "surface" == "--surface"
  {
  }

  /** toCssVars: the custom properties for a theme's colours and motion level. */
  function ToCssVars(t: Theme): map<string, string>
    requires forall k :: k in ColorKeys ==> k in t.colors
  {
    map["--bg" := t.colors["bg"], "--text" := t.colors["text"], "--accent" := t.colors["accent"],
        "--border" := t.colors["border"], "--muted" := t.colors["muted"],
        "--surface" := t.colors["surface"], "--motion-level" := Or(t.motion, "subtle")]
  }

  /** toCssVars yields exactly seven properties: `--<key>` for each colour key, holding that
      colour, and `--motion-level`, holding the motion level or "subtle" when it is falsy. */
  lemma CssVarsContract(t: Theme)
    requires forall k :: k in ColorKeys ==> k in t.colors
    ensures |ToCssVars(t)| == 7
    ensures forall k :: k in ColorKeys ==> "--" + k in ToCssVars(t) && ToCssVars(t)["--" + k] == t.colors[k]
    ensures "--motion-level" in ToCssVars(t) && ToCssVars(t)["--motion-level"] == Or(t.motion, "subtle")
  {
    ColorVarNames();
    CssVarNamesDistinct();
    assert ToCssVars(t).Keys == {"--bg", "--text", "--accent", "--border", "--muted", "--surface", "--motion-level"};
  }

  /** The seven custom-property names are pairwise different. */
  lemma CssVarNamesDistinct()
    ensures |{"--bg", "--text", "--accent", "--border", "--muted", "--surface", "--motion-level"}| == 7
  {
    // each name differs from the earlier ones in its length or in its third character
    var names: set<string> := {"--bg"};
    assert |"--text"| != |"--bg"|;
    names := names + {"--text"};
    assert "--accent"[2] == 'a' && "--bg"[2] == 'b' && "--text"[2] == 't';
    names := names + {"--accent"};
    assert |"--border"| == 8 && "--border"[2] == 'b';
    names := names + {"--border"};
    assert "--muted"[2] == 'm';
    names := names + {"--muted"};
    assert "--surface"[2] == 's';
    names := names + {"--surface"};
    assert |"--motion-level"| == 14 && "--motion-level"[2] == 'm';
    names := names + {"--motion-level"};
    assert names == {"--bg", "--text", "--accent", "--border", "--muted", "--surface", "--motion-level"};
  }

  /** The motion level applyTheme settles on: reduced whenever the user prefers reduced
      motion, otherwise the normalised theme's own level. */
  function MotionLevel(theme: Incoming, prefersReducedMotion: bool): (level: string)
    ensures prefersReducedMotion ==> level == "reduced"
    ensures !prefersReducedMotion ==> level == Normalized(theme).motion
  {
    if prefersReducedMotion then "reduced" else Or(Normalized(theme).motion, "subtle")
  }

  /** The CSS variables applyTheme writes on the document root. */
  function AppliedVars(theme: Incoming, prefersReducedMotion: bool): map<string, string> {
    ToCssVars(Normalized(theme).(motion := MotionLevel(theme, prefersReducedMotion)))
  }

  /** applyTheme: normalise, settle the motion level, and compute the properties to set. */
  method ApplyTheme(theme: Incoming, prefersReducedMotion: bool) returns (vars: map<string, string>)
    ensures vars == AppliedVars(theme, prefersReducedMotion)
  {
    var normalized := NormalizeTheme(theme);
    var motionLevel := if prefersReducedMotion then "reduced" else Or(normalized.motion, "subtle");
    normalized := normalized.(motion := motionLevel);
    vars := ToCssVars(normalized);
  }

  /** applyTheme writes seven properties: the normalised theme's colours, and a motion level
      that is "reduced" whenever reduced motion is preferred. */
  lemma AppliedVarsContract(theme: Incoming, prefersReducedMotion: bool)
    ensures |AppliedVars(theme, prefersReducedMotion)| == 7
    ensures "--motion-level" in AppliedVars(theme, prefersReducedMotion)
    ensures AppliedVars(theme, prefersReducedMotion)["--motion-level"] == MotionLevel(theme, prefersReducedMotion)
    ensures prefersReducedMotion ==> AppliedVars(theme, prefersReducedMotion)["--motion-level"] == "reduced"
    ensures forall k :: k in ColorKeys ==>
              "--" + k in AppliedVars(theme, prefersReducedMotion)
              && AppliedVars(theme, prefersReducedMotion)["--" + k] == Normalized(theme).colors[k]
  {
    CssVarsContract(Normalized(theme).(motion := MotionLevel(theme, prefersReducedMotion)));
  }

  /** The value a control shows after being set to `value`; None when the control is absent. */
  function Shown(control: Option<string>, value: string): Option<string> {
    if control.Some? then Some(value) else None
  }

  /** updateThemeFromInputs's edit of a draft: the motion control (when present) sets the
      motion, and every colour input holding a non-empty value sets that colour. */
  function Edited(d: Theme, motionInput: Option<string>, colorInputs: map<string, string>): Theme {
    var withMotion := if motionInput.Some? then d.(motion := Or(motionInput.value, "subtle")) else d;
    withMotion.(colors := Overlay(withMotion.colors, colorInputs, ColorKeys))
  }

  /** The body of updateThemeFromInputs on a draft: normalise it, then take the motion and the
      non-empty colours from the controls. */
  method EditTheme(draft: Theme, motionInput: Option<string>, colorInputs: map<string, string>) returns (d: Theme)
    requires WellFormed(draft)
    ensures d == Edited(draft, motionInput, colorInputs) && WellFormed(d)
  {
    d := NormalizeTheme(Lift(draft));
    NormalizeFixesWellFormed(draft);
    if motionInput.Some? {
      d := d.(motion := Or(motionInput.value, "subtle"));
    }
    var colors := CopyTruthyColors(d.colors, colorInputs);
    d := d.(colors := colors);
    EditedAt(draft, motionInput, colorInputs);
  }

  /** An edit keeps a draft well formed and changes only the motion and the colours whose
      input is non-empty; id and name stay. */
  lemma EditedAt(d: Theme, motionInput: Option<string>, colorInputs: map<string, string>)
    requires WellFormed(d)
    ensures WellFormed(Edited(d, motionInput, colorInputs))
    ensures Edited(d, motionInput, colorInputs).id == d.id
    ensures Edited(d, motionInput, colorInputs).name == d.name
    ensures Edited(d, motionInput, colorInputs).motion
            == if motionInput.Some? then Or(motionInput.value, "subtle") else d.motion
    ensures forall k :: k in ColorKeys ==>
              Edited(d, motionInput, colorInputs).colors[k]
              == if k in colorInputs && colorInputs[k] != "" then colorInputs[k] else d.colors[k]
  {
    var e := Edited(d, motionInput, colorInputs);
    forall k
      ensures k in e.colors <==> k in ColorKeys
      ensures k in ColorKeys ==> e.colors[k] != ""
      ensures k in ColorKeys ==>
                e.colors[k] == if k in colorInputs && colorInputs[k] != "" then colorInputs[k] else d.colors[k]
    {
      OverlayAt(d.colors, colorInputs, ColorKeys, k);
    }
  }

  /** Showing a well-formed theme in the controls and then reading the controls back yields
      the same theme: refreshInputs followed by updateThemeFromInputs changes nothing. */
  lemma RefreshThenEditKeeps(t: Theme, motionInput: Option<string>, colorInputs: map<string, string>)
    requires WellFormed(t)
    ensures Edited(t, Shown(motionInput, Or(t.motion, "subtle")), Overlay(colorInputs, t.colors, ColorKeys)) == t
  {
    var shown := Overlay(colorInputs, t.colors, ColorKeys);
    var e := Edited(t, Shown(motionInput, Or(t.motion, "subtle")), shown);
    EditedAt(t, Shown(motionInput, Or(t.motion, "subtle")), shown);
    forall k | k in ColorKeys
      ensures e.colors[k] == t.colors[k]
    {
      OverlayAt(colorInputs, t.colors, ColorKeys, k);
    }
    assert e.colors == t.colors;
  }

  /** After refreshInputs the colour inputs are the same inputs as before, and those that the
      theme's colours cover show that theme's colours. */
  lemma RefreshShows(colorInputs: map<string, string>, t: Theme)
    ensures Overlay(colorInputs, t.colors, ColorKeys).Keys == colorInputs.Keys
    ensures WellFormed(t) ==>
              forall k :: k in ColorKeys && k in colorInputs && k in t.colors ==>
                Overlay(colorInputs, t.colors, ColorKeys)[k] == t.colors[k]
  {
    OverlayKeepsKeys(colorInputs, t.colors, ColorKeys);
    forall k | k in colorInputs
      ensures WellFormed(t) && k in ColorKeys && k in t.colors ==>
                Overlay(colorInputs, t.colors, ColorKeys)[k] == t.colors[k]
    {
      OverlayAt(colorInputs, t.colors, ColorKeys, k);
    }
  }

  /** refreshInputs on controls that are not yet attached to a studio: what the preset
      select, the motion select and the colour inputs hold after showing a well-formed `t`. */
  method RefreshedControls(t: Theme, hasPresetSelect: bool, hasMotionSelect: bool, colorInputs: map<string, string>)
    returns (preset: Option<string>, motion: Option<string>, shown: map<string, string>)
    requires WellFormed(t)
    ensures preset.Some? == hasPresetSelect && (preset.Some? ==> preset.value == t.id)
    ensures motion.Some? == hasMotionSelect && (motion.Some? ==> motion.value == t.motion)
    ensures shown.Keys == colorInputs.Keys
    ensures forall k :: k in ColorKeys && k in shown && k in t.colors ==> shown[k] == t.colors[k]
  {
    preset := if hasPresetSelect then Some(Or(t.id, Default.id)) else None;
    motion := if hasMotionSelect then Some(Or(t.motion, "subtle")) else None;
    shown := CopyTruthyColors(colorInputs, t.colors);
    RefreshShows(colorInputs, t);
  }

  /**
   * The admin theme studio: the draft and published themes initAdminThemeStudio keeps, the
   * editor controls it reads and writes, and the CSS variables it last applied.
   */
  class ThemeStudio {
    var draft: Theme
    var published: Theme
    /** The preset select's value; None when the page has no preset select. */
    var presetInput: Option<string>
    /** The motion select's value; None when the page has no motion select. */
    var motionInput: Option<string>
    /** The colour inputs the page has, by key, with their current values. */
    var colorInputs: map<string, string>
    /** The current answer of the reduced-motion media query. */
    var prefersReducedMotion: bool
    /** The custom properties applyTheme last wrote on the document root. */
    var applied: map<string, string>

    ghost predicate Valid()
      reads this
    {
      WellFormed(draft) && WellFormed(published)
    }

    /** The controls show `t`, as refreshInputs leaves them. */
    ghost predicate Shows(t: Theme)
      reads this
    {
      && (presetInput.Some? ==> presetInput.value == t.id)
      && (motionInput.Some? ==> motionInput.value == t.motion)
      && (forall k :: k in ColorKeys && k in colorInputs && k in t.colors ==> colorInputs[k] == t.colors[k])
    }

    /** initAdminThemeStudio: load both themes (falling back to the default), show the draft in
        the controls and apply it. The stored themes are given as already parsed. */
    constructor (storedDraft: Option<Incoming>, storedPublished: Option<Incoming>,
                 hasPresetSelect: bool, hasMotionSelect: bool,
                 colorInputs: map<string, string>, prefersReducedMotion: bool)
      ensures Valid()
      ensures draft == Normalized(storedDraft.GetOr(NotAnObject))
      ensures published == Normalized(storedPublished.GetOr(NotAnObject))
      ensures storedDraft.None? ==> draft == Default
      ensures Shows(draft)
      ensures presetInput.Some? == hasPresetSelect && motionInput.Some? == hasMotionSelect
      ensures this.colorInputs.Keys == colorInputs.Keys
      ensures this.prefersReducedMotion == prefersReducedMotion
      ensures applied == AppliedVars(Lift(draft), prefersReducedMotion)
    {
      // a slot that holds nothing readable yields the default, which is Normalized(NotAnObject)
      var d := NormalizeTheme(storedDraft.GetOr(NotAnObject));
      var p := NormalizeTheme(storedPublished.GetOr(NotAnObject));
      draft := d;
      published := p;
      // refreshInputs(draftTheme)
      var preset, motion, shown := RefreshedControls(d, hasPresetSelect, hasMotionSelect, colorInputs);
      presetInput := preset;
      motionInput := motion;
      this.colorInputs := shown;
      this.prefersReducedMotion := prefersReducedMotion;
      var vars := ApplyTheme(Lift(d), prefersReducedMotion);
      applied := vars;
    }

    /** refreshInputs: every control that exists shows the theme's value. */
    method RefreshInputs(t: Theme)
      modifies this`presetInput, this`motionInput, this`colorInputs
      ensures presetInput == Shown(old(presetInput), Or(t.id, Default.id))
      ensures motionInput == Shown(old(motionInput), Or(t.motion, "subtle"))
      ensures colorInputs == Overlay(old(colorInputs), t.colors, ColorKeys)
      ensures WellFormed(t) ==> Shows(t)
    {
      if presetInput.Some? {
        presetInput := Some(Or(t.id, Default.id));
      }
      if motionInput.Some? {
        motionInput := Some(Or(t.motion, "subtle"));
      }
      RefreshShows(colorInputs, t);
      colorInputs := CopyTruthyColors(colorInputs, t.colors);
    }

    /** updateThemeFromInputs: normalise the draft, take the motion and the non-empty colours
        from the controls, and apply the result. */
    method UpdateThemeFromInputs()
      requires Valid()
      modifies this`draft, this`applied
      ensures Valid()
      ensures draft == Edited(old(draft), motionInput, colorInputs)
      ensures applied == AppliedVars(Lift(draft), prefersReducedMotion)
    {
      var d := EditTheme(draft, motionInput, colorInputs);
      draft := d;
      applied := ApplyTheme(Lift(d), prefersReducedMotion);
    }

    /** Shows `t` in the controls and reads it back as the new draft: the sequence every
        draft-replacing action ends with. */
    method ShowAndApply(t: Theme)
      requires Valid() && WellFormed(t)
      modifies this`draft, this`applied, this`presetInput, this`motionInput, this`colorInputs
      ensures Valid()
      ensures draft == t && published == old(published)
      ensures Shows(t)
      ensures presetInput.Some? == old(presetInput).Some? && motionInput.Some? == old(motionInput).Some?
      ensures colorInputs.Keys == old(colorInputs).Keys
      ensures applied == AppliedVars(Lift(t), prefersReducedMotion)
    {
      ghost var inputs := colorInputs;
      RefreshShows(inputs, t);
      RefreshThenEditKeeps(t, motionInput, inputs);
      draft := t;
      RefreshInputs(t);
      UpdateThemeFromInputs();
    }

    /** The preset select changed: the chosen preset (or the default) becomes the draft. */
    method SelectPreset(value: string)
      requires Valid() && presetInput.Some?
      modifies this`draft, this`applied, this`presetInput, this`motionInput, this`colorInputs
      ensures Valid()
      ensures draft == GetPresetById(value) && published == old(published)
      ensures presetInput == Some(draft.id) && motionInput.Some? == old(motionInput).Some?
      ensures colorInputs.Keys == old(colorInputs).Keys
      ensures applied == AppliedVars(Lift(draft), prefersReducedMotion)
    {
      presetInput := Some(value);
      ShowAndApply(GetPresetById(value));
    }

    /** setDraftTheme: the normalised theme becomes the draft. */
    method SetDraftTheme(theme: Incoming)
      requires Valid()
      modifies this`draft, this`applied, this`presetInput, this`motionInput, this`colorInputs
      ensures Valid()
      ensures draft == Normalized(theme) && published == old(published)
      ensures Shows(draft)
      ensures presetInput.Some? == old(presetInput).Some? && motionInput.Some? == old(motionInput).Some?
      ensures colorInputs.Keys == old(colorInputs).Keys
      ensures applied == AppliedVars(Lift(draft), prefersReducedMotion)
    {
      var t := NormalizeTheme(theme);
      NormalizeContract(theme);
      ShowAndApply(t);
    }

    /** revertDraft: the published theme becomes the draft again. */
    method RevertDraft()
      requires Valid()
      modifies this`draft, this`applied, this`presetInput, this`motionInput, this`colorInputs
      ensures Valid()
      ensures draft == old(published) && published == old(published)
      ensures Shows(draft)
      ensures presetInput.Some? == old(presetInput).Some? && motionInput.Some? == old(motionInput).Some?
      ensures colorInputs.Keys == old(colorInputs).Keys
      ensures applied == AppliedVars(Lift(draft), prefersReducedMotion)
    {
      ShowAndApply(published);
    }

    /** resetDefault: the default theme becomes the draft. */
    method ResetDefault()
      requires Valid()
      modifies this`draft, this`applied, this`presetInput, this`motionInput, this`colorInputs
      ensures Valid()
      ensures draft == Default && published == old(published)
      ensures Shows(draft)
      ensures presetInput.Some? == old(presetInput).Some? && motionInput.Some? == old(motionInput).Some?
      ensures colorInputs.Keys == old(colorInputs).Keys
      ensures applied == AppliedVars(Lift(draft), prefersReducedMotion)
    {
      NormalizeContract(NotAnObject);
      ShowAndApply(Default);
    }

    /** saveDraft: neither theme changes; returns the theme written to the draft slot of
        storage (the normalised draft, which is the draft itself). */
    method SaveDraft() returns (stored: Theme)
      requires Valid()
      ensures stored == draft
    {
      stored := NormalizeTheme(Lift(draft));
      NormalizeFixesWellFormed(draft);
    }

    /** publish: the draft becomes the published theme; returns the theme written to the
        published slot of storage. */
    method Publish() returns (stored: Theme)
      requires Valid()
      modifies this`published
      ensures Valid()
      ensures published == old(draft) && draft == old(draft)
      ensures stored == published
    {
      published := draft;
      stored := NormalizeTheme(Lift(published));
      NormalizeFixesWellFormed(published);
    }

    /** The page became visible again and a stored timestamp changed (`changed`): reload both
        themes from storage, keeping the current one for a slot that holds nothing readable,
        and show the draft in the controls. */
    method OnVisible(changed: bool, storedDraft: Option<Incoming>, storedPublished: Option<Incoming>)
      requires Valid()
      modifies this`draft, this`published, this`presetInput, this`motionInput, this`colorInputs
      ensures Valid()
      ensures !changed ==> draft == old(draft) && published == old(published)
      ensures changed ==> draft == (if storedDraft.Some? then Normalized(storedDraft.value) else old(draft))
      ensures changed ==> published == (if storedPublished.Some? then Normalized(storedPublished.value) else old(published))
      ensures !changed ==> presetInput == old(presetInput) && motionInput == old(motionInput)
                           && colorInputs == old(colorInputs)
      ensures changed ==> Shows(draft)
      ensures presetInput.Some? == old(presetInput).Some? && motionInput.Some? == old(motionInput).Some?
      ensures colorInputs.Keys == old(colorInputs).Keys
    {
      if changed {
        if storedPublished.Some? {
          published := NormalizeTheme(storedPublished.value);
          NormalizeContract(storedPublished.value);
        }
        if storedDraft.Some? {
          draft := NormalizeTheme(storedDraft.value);
          NormalizeContract(storedDraft.value);
        }
        RefreshShows(colorInputs, draft);
        RefreshInputs(draft);
      }
    }

    /** The reduced-motion media query changed. The next applyTheme uses the new answer. */
    method OnReducedMotionChange(matches: bool)
      modifies this`prefersReducedMotion
      ensures prefersReducedMotion == matches
    {
      prefersReducedMotion := matches;
    }

    /** getDraftTheme. */
    method GetDraftTheme() returns (t: Theme)
      ensures t == draft
    {
      t := draft;
    }

    /** getPublishedTheme. */
    method GetPublishedTheme() returns (t: Theme)
      ensures t == published
    {
      t := published;
    }
  }
}
