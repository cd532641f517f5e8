/** `temporary_macro`: a copy of a macro file of the repository at a given
    tag, followed by a trailer that seeds and runs the simulation, written
    to a fresh temporary ".mac" file.

    The working tree is the one the tag service uses, with paths relative
    to its top; the random part of the temporary file name and the
    temporary directory are given as parameters. */
module TempfileUtils {
  import opened Common
  import opened Text
  import opened Paths
  import opened Git
  import opened StringTemplate

  /** `app_map`: the command prefix an application's macros use, where it
      differs from the application's name. */
  const AppMap: map<string, string> := map["BACCARAT" := "Bacc"]

  /** `app_map.get(app, app)`. */
  function AppAlias(app: string): (alias: string)
    ensures app == "BACCARAT" ==> alias == "Bacc"
    ensures app != "BACCARAT" ==> alias == app
  {
    if app in AppMap then AppMap[app] else app
  }

  // The trailer template, once dedented, cut at its placeholders.
  const Head: string := "\n/control/getEnv SEED\n/"
  const SeedLine: string := "/randomSeed {SEED}\n/"
  const BeamOn: string := "/beamOn "
  const Tail: string := "\nexit\n"

  const ExtrasTemplate: string := Head + ("$app" + (SeedLine + ("$app" + (BeamOn + ("$nevents" + Tail)))))

  /** The trailer: the template with the application's command prefix and
      the event count filled in. */
  function MacroExtras(app: string, nevents: int): string
  {
    SafeSubstitute(ExtrasTemplate, map["app" := AppAlias(app), "nevents" := IntToString(nevents)])
  }

  /** The trailer template cut at its placeholders. */
  const TrailerPieces: seq<Piece> :=
    [Literal(Head), Placeholder("app"), Literal(SeedLine), Placeholder("app"),
     Literal(BeamOn), Placeholder("nevents"), Literal(Tail)]

  /** The pieces of a template of the trailer's shape: text, `a`, text,
      `a`, text, `n`, text. */
  function TrailerShape(head: string, a: string, seedLine: string, beamOn: string, n: string, tail: string)
    : seq<Piece>
  {
    [Literal(head)] + ([Placeholder(a)] + ([Literal(seedLine)] + ([Placeholder(a)]
      + ([Literal(beamOn)] + ([Placeholder(n)] + [Literal(tail)])))))
  }

  /** What such pieces spell and what they fill to. */
  lemma TrailerShapeText(head: string, a: string, seedLine: string, beamOn: string, n: string, tail: string,
                         values: map<string, string>)
    requires a in values && n in values
    ensures Render(TrailerShape(head, a, seedLine, beamOn, n, tail))
         == head + ("$" + a + (seedLine + ("$" + a + (beamOn + ("$" + n + tail)))))
    ensures Fill(TrailerShape(head, a, seedLine, beamOn, n, tail), values)
         == head + (values[a] + (seedLine + (values[a] + (beamOn + (values[n] + tail)))))
  {
    var p6: seq<Piece> := [Literal(tail)];
    var p5 := [Placeholder(n)] + p6;
    var p4 := [Literal(beamOn)] + p5;
    var p3 := [Placeholder(a)] + p4;
    var p2 := [Literal(seedLine)] + p3;
    var p1 := [Placeholder(a)] + p2;
    RenderCons(Literal(tail), [], values);
    assert [Literal(tail)] + [] == p6 && tail + [] == tail;
    RenderCons(Placeholder(n), p6, values);
    RenderCons(Literal(beamOn), p5, values);
    RenderCons(Placeholder(a), p4, values);
    RenderCons(Literal(seedLine), p3, values);
    RenderCons(Placeholder(a), p2, values);
    RenderCons(Literal(head), p1, values);
  }

  /** Such pieces are unambiguous when the texts hold no "$", the texts
      after placeholders cannot continue a name, and the names are
      identifiers. */
  lemma TrailerShapeUnambiguous(head: string, a: string, seedLine: string, beamOn: string, n: string, tail: string)
    requires '$' !in head && '$' !in seedLine && '$' !in beamOn && '$' !in tail
    requires seedLine != [] && !IsIdChar(seedLine[0])
    requires beamOn != [] && !IsIdChar(beamOn[0])
    requires tail != [] && !IsIdChar(tail[0])
    requires IsIdentifier(a) && IsIdentifier(n)
    ensures Unambiguous(TrailerShape(head, a, seedLine, beamOn, n, tail))
  {
    var ps := TrailerShape(head, a, seedLine, beamOn, n, tail);
    forall i | 0 <= i < |ps| ensures UnambiguousAt(ps, i) {
    }
  }

  /** The trailer's texts hold no "$", and those after a placeholder start
      with a character that cannot continue a name. */
  lemma TrailerTextsPlain()
    ensures '$' !in Head && '$' !in SeedLine && '$' !in BeamOn && '$' !in Tail
    ensures SeedLine != [] && !IsIdChar(SeedLine[0])
    ensures BeamOn != [] && !IsIdChar(BeamOn[0])
    ensures Tail != [] && !IsIdChar(Tail[0])
  {
    assert SeedLine[0] == '/' && BeamOn[0] == '/' && Tail[0] == '\n';
  }

  /** The trailer template is unambiguous and spells `ExtrasTemplate`. */
  lemma TrailerPiecesSpellTemplate()
    ensures TrailerPieces == TrailerShape(Head, "app", SeedLine, BeamOn, "nevents", Tail)
    ensures Unambiguous(TrailerPieces)
    ensures Render(TrailerPieces) == ExtrasTemplate
  {
    var app, nevents := "app", "nevents";
    assert "$app" == "$" + app && "$nevents" == "$" + nevents;
    assert IsIdentifier(app) && IsIdentifier(nevents);
    TrailerTextsPlain();
    TrailerShapeUnambiguous(Head, app, SeedLine, BeamOn, nevents, Tail);
    TrailerShapeText(Head, app, SeedLine, BeamOn, nevents, Tail, map[app := [], nevents := []]);
  }

  /** The trailer is exactly the template's text with `$app` replaced by the
      command prefix and `$nevents` by the event count; everything else,
      the seed placeholder `{SEED}` included, is copied as it is. */
  lemma MacroExtrasText(app: string, nevents: int)
    ensures MacroExtras(app, nevents)
         == Head + (AppAlias(app) + (SeedLine + (AppAlias(app) + (BeamOn + (IntToString(nevents) + Tail)))))
    ensures Head == "\n/control/getEnv SEED\n/" && SeedLine == "/randomSeed {SEED}\n/"
    ensures BeamOn == "/beamOn " && Tail == "\nexit\n"
  {
    var values := map["app" := AppAlias(app), "nevents" := IntToString(nevents)];
    TrailerPiecesSpellTemplate();
    SubstitutePieces(TrailerPieces, values);
    TrailerShapeText(Head, "app", SeedLine, BeamOn, "nevents", Tail, values);
  }

  /** The name `NamedTemporaryFile` gives the copy: in directory `dir`, the
      macro's base name without extension, "_", the random part, ".mac". */
  function TempName(dir: string, macro: string, random: string): string
  {
    Join(dir, StripExt(Basename(macro)) + "_" + random + ".mac")
  }

  /** A prefix of a separator-free text is separator-free. */
  lemma PrefixHasNoSeparator(stem: string, b: string)
    requires stem <= b && '/' !in b
    ensures '/' !in stem
  {
    forall i | 0 <= i < |stem| ensures stem[i] != '/' {
      assert stem[i] == b[i];
    }
  }

  /** A base name without its extension holds no separator. */
  lemma StemHasNoSeparator(macro: string)
    ensures '/' !in StripExt(Basename(macro))
  {
    PrefixHasNoSeparator(StripExt(Basename(macro)), Basename(macro));
  }

  /** A separator-free stem, "_", a separator-free random part and ".mac",
      joined to a directory, has a base name with that prefix and suffix. */
  lemma TempFileNameShape(dir: string, stem: string, random: string)
    requires '/' !in stem && '/' !in random
    ensures StartsWith(Basename(Join(dir, stem + "_" + random + ".mac")), stem + "_")
    ensures EndsWith(Basename(Join(dir, stem + "_" + random + ".mac")), ".mac")
  {
    var file := stem + "_" + random + ".mac";
    assert '/' !in "_" && '/' !in ".mac";
    assert '/' !in file;
    BasenameOfJoin(dir, file);
    assert file[..|stem + "_"|] == stem + "_";
    assert file[|file| - 4..] == ".mac";
  }

  /** The copy's file name starts with the macro's base name without
      extension and "_", and ends in ".mac". */
  lemma TempNameShape(dir: string, macro: string, random: string)
    requires '/' !in random
    ensures StartsWith(Basename(TempName(dir, macro, random)), StripExt(Basename(macro)) + "_")
    ensures EndsWith(Basename(TempName(dir, macro, random)), ".mac")
  {
    StemHasNoSeparator(macro);
    TempFileNameShape(dir, StripExt(Basename(macro)), random);
  }

  /** A temporary file: its name and what has been written to it. */
  class TempFile {
    const name: string
    var contents: string

    constructor (name: string)
      ensures this.name == name && contents == []
    {
      this.name := name;
      contents := [];
    }

    method Write(data: string)
      modifies this
      ensures contents == old(contents) + data
    {
      contents := contents + data;
    }
  }

  datatype MacroError =
    | CheckoutFailed(tag: string)
    | MacroMissing(macro: string, tag: string)  // "Macro file ... doesn't exist in tag ..."

  /** `temporary_macro(tag, macro, app, nevents)`. The tag is checked out;
      if it has no file at `macro` the call fails and no file is made.
      Otherwise a fresh file named as `TempName` says holds the macro's
      bytes followed by the trailer. */
  method TemporaryMacro(repo: WorkingTree, tag: string, macro: string, app: string, nevents: int,
                        dir: string, random: string)
    returns (r: Result<TempFile, MacroError>)
    modifies repo
    ensures repo.checkouts == old(repo.checkouts) + [tag]
    ensures tag !in repo.refs ==> r == Err(CheckoutFailed(tag)) && repo.head == old(repo.head)
    ensures tag in repo.refs ==> repo.head == Some(tag)
    ensures tag in repo.refs && ReadFile(repo.refs[tag], macro).None? ==> r == Err(MacroMissing(macro, tag))
    ensures tag in repo.refs && ReadFile(repo.refs[tag], macro).Some? ==>
              && r.Ok? && fresh(r.value)
              && r.value.name == TempName(dir, macro, random)
              && r.value.contents == ReadFile(repo.refs[tag], macro).value + MacroExtras(app, nevents)
  {
    var ok := repo.Checkout(tag);
    if !ok {
      return Err(CheckoutFailed(tag));
    }
    var content := ReadFile(repo.refs[tag], macro);
    if content.None? {
      return Err(MacroMissing(macro, tag));
    }
    var extras := MacroExtras(app, nevents);
    var tmp := new TempFile(TempName(dir, macro, random));
    tmp.Write(content.value);
    tmp.Write(extras);
    assert [] + content.value == content.value;
    return Ok(tmp);
  }
}
