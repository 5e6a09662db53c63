/** The map template of plotMap.py: the `Mapa` record and `loadMapTemplate`,
    a line-oriented `key:value` reader that demands exactly eleven counted
    lines and then pulls out eleven named keys.

    Reading the file is a parameter: `None` stands for a file that cannot be
    opened, `Some(lines)` for its lines as `for line in f` yields them.
    Python's `float(...)` is the parameter `toFloat`, a partial parse. */
module Template {

  import opened Results
  import opened Text

  /** The `Mapa` class: the visual layout of one map. */
  datatype Mapa = Mapa(
    mapaCoordenadas: seq<real>,
    mapaTipo: string,
    barraCoresTitulo: string,
    barraCoresOrientacao: string,
    barraCoresValores: seq<real>,
    barraCoresCodigos: seq<string>,
    barraCoresPosicao: string,
    barraCoresCorMinimo: string,
    barraCoresCorMaximo: string,
    barraCoresDist: real,
    barraCoresTam: real)

  /** The three messages `loadMapTemplate` can raise. An unreadable file and a
      counted line without `:` end in the same error: the inner exception is
      swallowed by a bare `except` and replaced by the "cannot open" one. */
  datatype LoadError =
    | CannotOpen
    | WrongLineCount(found: nat)
    | CannotInterpret

  /** `check_valid_lines`. */
  const ExpectedLines: nat := 11

  const KeyTipo := "mapa_tipo"
  const KeyOrientacao := "barra_cores_orientacao"
  const KeyTitulo := "barra_cores_titulo"
  const KeyCorMinimo := "barra_cores_corMinimo"
  const KeyCorMaximo := "barra_cores_corMaximo"
  const KeyPosicao := "barra_cores_posicao"
  const KeyCodigos := "barra_cores_codigos"
  const KeyDist := "barra_cores_dist"
  const KeyTam := "barra_cores_tam"
  const KeyValores := "barra_cores_valores"
  const KeyCoordenadas := "mapa_coordenadas"

  const RequiredKeys: set<string> := {
    KeyTipo, KeyOrientacao, KeyTitulo, KeyCorMinimo, KeyCorMaximo, KeyPosicao,
    KeyCodigos, KeyDist, KeyTam, KeyValores, KeyCoordenadas
  }

  lemma RequiredKeyCount()
    ensures |RequiredKeys| == ExpectedLines
  {
  }

  // ---------------------------------------------------------------------
  // One line

  /** How one raw line of the file is treated. */
  datatype Line =
    | Skipped                          // blank or `#` comment
    | Entry(key: string, value: string)
    | Malformed                        // counted, but has no `:`

  /** The first character of `s` that is not whitespace, if any. */
  function FirstNonSpace(s: string): Option<char>
  {
    if |s| == 0 then None
    else if IsSpace(s[0]) then FirstNonSpace(s[1..])
    else Some(s[0])
  }

  /** A line is skipped when it is blank or its first visible character is `#`. */
  function IsSkipped(raw: string): (b: bool)
    ensures b <==> |LStrip(raw)| == 0 || LStrip(raw)[0] == '#'
  {
    FirstNonSpaceIsLStripHead(raw);
    var f := FirstNonSpace(raw);
    f.None? || f.value == '#'
  }

  lemma {:induction false} FirstNonSpaceIsLStripHead(s: string)
    ensures FirstNonSpace(s).None? <==> |LStrip(s)| == 0
    ensures FirstNonSpace(s).Some? ==> FirstNonSpace(s).value == LStrip(s)[0]
  {
    if |s| > 0 && IsSpace(s[0]) {
      FirstNonSpaceIsLStripHead(s[1..]);
    }
  }

  /** `IsSkipped` is the test `loadMapTemplate` writes: with
      `prefix = line.rstrip().strip()`, a line counts only when `prefix` is
      non-empty and does not start with `#`. */
  lemma {:induction false} IsSkippedMatchesStrip(raw: string)
    ensures var prefix := Strip(RStrip(raw));
            IsSkipped(raw) <==> |prefix| == 0 || prefix[0] == '#'
  {
    FirstNonSpaceIsLStripHead(RStrip(raw));
    RStripKeepsFirstNonSpace(raw);
  }

  /** Trailing whitespace never hides the first visible character. */
  lemma RStripKeepsFirstNonSpace(s: string)
    ensures FirstNonSpace(RStrip(s)) == FirstNonSpace(s)
  {
    var r := RStrip(s);
    assert s == r + s[|r|..];
    SpaceTailIrrelevant(r, s[|r|..]);
  }

  lemma {:induction false} SpaceTailIrrelevant(a: string, b: string)
    requires forall i :: 0 <= i < |b| ==> IsSpace(b[i])
    ensures FirstNonSpace(a + b) == FirstNonSpace(a)
    decreases |a| + |b|
  {
    if |a| == 0 {
      assert a + b == b;
      if |b| > 0 {
        SpaceTailIrrelevant(a, b[1..]);
        assert b[1..] == a + b[1..];
      }
    } else {
      assert (a + b)[1..] == a[1..] + b;
      SpaceTailIrrelevant(a[1..], b);
    }
  }

  /** The treatment of one line: the key is the text before the first `:`, the
      value the text between the first and the second `:` of the right-stripped
      line; leading blanks stay in both. */
  function ClassifyLine(raw: string): (r: Line)
    ensures r.Skipped? <==> IsSkipped(raw)
    ensures r.Malformed? <==> !IsSkipped(raw) && ':' !in RStrip(raw)
    ensures r.Entry? ==> ':' !in r.key && ':' !in r.value
  {
    if IsSkipped(raw) then Skipped
    else
      var line := RStrip(raw);
      if ':' !in line then Malformed
      else
        SplitFirstTwo(line, ':');
        var parts := Split(line, ':');
        Entry(parts[0], parts[1])
  }

  /** A line is skipped exactly when blank or a comment, malformed exactly when
      counted but free of `:`; otherwise its key is the text before the first
      `:` and its value runs up to the second `:` or the end of the
      right-stripped line, neither containing `:`. */
  lemma ClassifyLineSpec(raw: string)
    ensures ClassifyLine(raw).Skipped? <==> IsSkipped(raw)
    ensures ClassifyLine(raw).Malformed? <==> !IsSkipped(raw) && ':' !in raw
    ensures ClassifyLine(raw).Entry? ==>
              var r := ClassifyLine(raw);
              var line := RStrip(raw);
              var head := r.key + [':'] + r.value;
              && ':' !in r.key && ':' !in r.value
              && head <= line
              && (|head| == |line| || line[|head|] == ':')
  {
    var line := RStrip(raw);
    if ':' in line {
      SplitFirstTwo(line, ':');
    }
  }

  // ---------------------------------------------------------------------
  // The reading loop

  /** Every line of the file, classified. */
  function Classify(lines: seq<string>): (ls: seq<Line>)
    ensures |ls| == |lines|
    ensures forall i :: 0 <= i < |lines| ==> ls[i] == ClassifyLine(lines[i])
  {
    seq(|lines|, i requires 0 <= i < |lines| => ClassifyLine(lines[i]))
  }

  lemma ClassifyAppend(a: seq<string>, b: seq<string>)
    ensures Classify(a + b) == Classify(a) + Classify(b)
  {
  }

  /** What the loop has gathered: the number of counted lines and `map_dict`. */
  datatype Gathered = Gathered(count: nat, entries: map<string, string>)

  /** The reading loop as a definition over the lines read so far: each
      counted line adds one to the count and sets its key, later lines
      overwriting earlier ones; a malformed line stops everything. */
  function Gather(ls: seq<Line>): (r: Result<Gathered, LoadError>)
    ensures r.Failure? ==> r.error == CannotOpen
    ensures r.Success? ==> r.value.count <= |ls|
    decreases |ls|
  {
    if |ls| == 0 then Success(Gathered(0, map[]))
    else
      match Gather(ls[..|ls| - 1])
      case Failure(e) => Failure(e)
      case Success(g) =>
        match ls[|ls| - 1]
        case Skipped => Success(g)
        case Malformed => Failure(CannotOpen)
        case Entry(k, v) => Success(Gathered(g.count + 1, g.entries[k := v]))
  }

  /** The number of counted (neither blank nor comment) lines. */
  function CountedLines(ls: seq<Line>): nat
    decreases |ls|
  {
    if |ls| == 0 then 0
    else CountedLines(ls[..|ls| - 1]) + (if ls[|ls| - 1].Skipped? then 0 else 1)
  }

  /** The loop of `loadMapTemplate` as written, one raw line at a time,
      leaving at the first line without `:`. */
  method GatherLines(lines: seq<string>) returns (r: Result<Gathered, LoadError>)
    ensures r == Gather(Classify(lines))
  {
    ghost var ls := Classify(lines);
    var validLines: nat := 0;
    var mapDict: map<string, string> := map[];
    var i := 0;
    while i < |lines|
      invariant 0 <= i <= |lines|
      invariant Gather(ls[..i]) == Success(Gathered(validLines, mapDict))
    {
      var line := ClassifyLine(lines[i]);
      assert line == ls[i];
      GatherStep(ls, i);
      match line {
        case Skipped =>
        case Malformed =>
          FailureSticks(ls, i + 1);
          return Failure(CannotOpen);
        case Entry(k, v) =>
          validLines := validLines + 1;
          mapDict := mapDict[k := v];
      }
      i := i + 1;
    }
    assert ls[..i] == ls;
    return Success(Gathered(validLines, mapDict));
  }

  /** One more line read by the loop. */
  lemma GatherStep(ls: seq<Line>, i: nat)
    requires i < |ls| && Gather(ls[..i]).Success?
    ensures var g := Gather(ls[..i]).value;
            && (ls[i].Skipped? ==> Gather(ls[..i + 1]) == Success(g))
            && (ls[i].Malformed? ==> Gather(ls[..i + 1]) == Failure(CannotOpen))
            && (ls[i].Entry? ==> Gather(ls[..i + 1]) == Success(Gathered(g.count + 1, g.entries[ls[i].key := ls[i].value])))
  {
    assert ls[..i + 1][..i] == ls[..i];
  }

  /** Once the loop has failed it stays failed, with the same error. */
  lemma {:induction false} FailureSticks(ls: seq<Line>, n: nat)
    requires n <= |ls|
    requires Gather(ls[..n]) == Failure(CannotOpen)
    ensures Gather(ls) == Failure(CannotOpen)
    decreases |ls| - n
  {
    if n < |ls| {
      assert ls[..n + 1][..n] == ls[..n];
      FailureSticks(ls, n + 1);
    } else {
      assert ls[..n] == ls;
    }
  }

  /** A skipped line can be dropped without changing the outcome or the count. */
  lemma {:induction false} SkippedDrops(a: seq<Line>, b: seq<Line>)
    ensures Gather(a + [Skipped] + b) == Gather(a + b)
    ensures CountedLines(a + [Skipped] + b) == CountedLines(a + b)
    decreases |b|
  {
    if |b| == 0 {
      assert a + [Skipped] + b == a + [Skipped];
      assert (a + [Skipped])[..|a|] == a;
      assert a + b == a;
    } else {
      var b' := b[..|b| - 1];
      var x := a + [Skipped] + b;
      var y := a + b;
      assert x[..|x| - 1] == a + [Skipped] + b';
      assert y[..|y| - 1] == a + b';
      assert x[|x| - 1] == y[|y| - 1];
      SkippedDrops(a, b');
    }
  }

  /** Reading fails exactly when some line is malformed, and then always with
      the "cannot open" error. */
  lemma {:induction false} GatherFailsIffMalformed(ls: seq<Line>)
    ensures Gather(ls).Failure? <==> Malformed in ls
    ensures Gather(ls).Failure? ==> Gather(ls).error == CannotOpen
    decreases |ls|
  {
    if |ls| > 0 {
      var init := ls[..|ls| - 1];
      GatherFailsIffMalformed(init);
      assert ls == init + [ls[|ls| - 1]];
    }
  }

  /** On success the count is the number of counted lines (repeated keys
      included) and never less than the number of distinct keys. */
  lemma {:induction false} GatherCount(ls: seq<Line>)
    requires Gather(ls).Success?
    ensures Gather(ls).value.count == CountedLines(ls)
    ensures |Gather(ls).value.entries| <= Gather(ls).value.count
    decreases |ls|
  {
    if |ls| > 0 {
      var init := ls[..|ls| - 1];
      GatherCount(init);
      var g := Gather(init).value;
      match ls[|ls| - 1] {
        case Skipped =>
        case Malformed =>
        case Entry(k, v) =>
          var m := g.entries[k := v];
          if k in g.entries {
            assert m.Keys == g.entries.Keys;
          } else {
            assert m.Keys == g.entries.Keys + {k};
          }
      }
    }
  }

  /** The line that last sets a key determines its value: a repeated key's
      later line overwrites the earlier one. */
  lemma {:induction false} LastEntryWins(ls: seq<Line>, i: nat, k: string, v: string)
    requires i < |ls| && ls[i] == Entry(k, v)
    requires forall j :: i < j < |ls| ==> !(ls[j].Entry? && ls[j].key == k)
    requires Gather(ls).Success?
    ensures k in Gather(ls).value.entries && Gather(ls).value.entries[k] == v
    decreases |ls|
  {
    var init := ls[..|ls| - 1];
    assert Gather(init).Success?;
    if i < |ls| - 1 {
      LastEntryWins(init, i, k, v);
    }
  }

  /** A key set by some counted line is in `map_dict` after the loop. */
  lemma {:induction false} EntryKeyKept(ls: seq<Line>, i: nat)
    requires i < |ls| && ls[i].Entry?
    requires Gather(ls).Success?
    ensures ls[i].key in Gather(ls).value.entries
    decreases |ls|
  {
    var init := ls[..|ls| - 1];
    assert Gather(init).Success?;
    if i < |ls| - 1 {
      EntryKeyKept(init, i);
    }
  }

  /** Every key in `map_dict` comes from some counted line. */
  lemma {:induction false} EntryHasSourceLine(ls: seq<Line>, k: string) returns (i: nat)
    requires Gather(ls).Success? && k in Gather(ls).value.entries
    ensures i < |ls| && ls[i].Entry? && ls[i].key == k
    decreases |ls|
  {
    var init := ls[..|ls| - 1];
    var last := ls[|ls| - 1];
    if last.Entry? && last.key == k {
      i := |ls| - 1;
    } else {
      i := EntryHasSourceLine(init, k);
    }
  }

  /** With a repeated key, `map_dict` has fewer keys than there are counted lines. */
  lemma {:induction false} RepeatedKeyShrinks(ls: seq<Line>, i: nat, j: nat)
    requires i < j < |ls|
    requires ls[i].Entry? && ls[j].Entry? && ls[i].key == ls[j].key
    requires Gather(ls).Success?
    ensures |Gather(ls).value.entries| < Gather(ls).value.count
    decreases |ls|
  {
    var init := ls[..|ls| - 1];
    assert Gather(init).Success?;
    GatherCount(init);
    var g := Gather(init).value;
    if j < |ls| - 1 {
      RepeatedKeyShrinks(init, i, j);
    } else {
      EntryKeyKept(init, i);
      assert g.entries[ls[j].key := ls[j].value].Keys == g.entries.Keys;
    }
  }

  // ---------------------------------------------------------------------
  // Building the record

  /** `[float(i) for i in pieces]`: fails if any piece does not convert. */
  function ParseAll(pieces: seq<string>, toFloat: string -> Option<real>): (r: Option<seq<real>>)
    ensures r.Some? <==> forall i :: 0 <= i < |pieces| ==> toFloat(pieces[i]).Some?
    ensures r.Some? ==> |r.value| == |pieces| &&
                        forall i :: 0 <= i < |pieces| ==> Some(r.value[i]) == toFloat(pieces[i])
    decreases |pieces|
  {
    if |pieces| == 0 then Some([])
    else
      match toFloat(pieces[0])
      case None => None
      case Some(x) =>
        match ParseAll(pieces[1..], toFloat)
        case None => None
        case Some(xs) => Some([x] + xs)
  }

  /** Every required key is present and every numeric field converts. */
  predicate Interpretable(d: map<string, string>, toFloat: string -> Option<real>)
  {
    && RequiredKeys <= d.Keys
    && toFloat(d[KeyDist]).Some?
    && toFloat(d[KeyTam]).Some?
    && (forall p :: p in Split(d[KeyValores], ',') ==> toFloat(p).Some?)
    && (forall p :: p in Split(d[KeyCoordenadas], ',') ==> toFloat(p).Some?)
  }

  /** The second `try` block: allocate the fields of a `Mapa`. */
  function BuildMapa(d: map<string, string>, toFloat: string -> Option<real>): (r: Result<Mapa, LoadError>)
    ensures r.Success? <==> Interpretable(d, toFloat)
    ensures r.Failure? ==> r.error == CannotInterpret
  {
    if !(RequiredKeys <= d.Keys) then Failure(CannotInterpret)
    else
      var dist := toFloat(d[KeyDist]);
      var tam := toFloat(d[KeyTam]);
      var valores := ParseAll(Split(d[KeyValores], ','), toFloat);
      var coordenadas := ParseAll(Split(d[KeyCoordenadas], ','), toFloat);
      if dist.None? || tam.None? || valores.None? || coordenadas.None? then Failure(CannotInterpret)
      else
        Success(Mapa(
          mapaCoordenadas := coordenadas.value,
          mapaTipo := d[KeyTipo],
          barraCoresTitulo := d[KeyTitulo],
          barraCoresOrientacao := d[KeyOrientacao],
          barraCoresValores := valores.value,
          barraCoresCodigos := Split(d[KeyCodigos], ','),
          barraCoresPosicao := d[KeyPosicao],
          barraCoresCorMinimo := d[KeyCorMinimo],
          barraCoresCorMaximo := d[KeyCorMaximo],
          barraCoresDist := dist.value,
          barraCoresTam := tam.value))
  }

  /** `loadMapTemplate`. */
  function LoadMapTemplate(file: Option<seq<string>>, toFloat: string -> Option<real>): (r: Result<Mapa, LoadError>)
    // an unopenable file and a malformed counted line give the same error
    ensures r == Failure(CannotOpen) <==> file.None? || Malformed in Classify(file.value)
    // otherwise the number of counted lines must be exactly eleven
    ensures file.Some? && Malformed !in Classify(file.value) ==>
              (r.Failure? && r.error.WrongLineCount? <==> CountedLines(Classify(file.value)) != ExpectedLines)
    ensures r.Failure? && r.error.WrongLineCount? ==> r.error.found == CountedLines(Classify(file.value))
    // and then the keys must be there and the numbers must convert
    ensures r.Success? <==>
              && file.Some? && Malformed !in Classify(file.value)
              && CountedLines(Classify(file.value)) == ExpectedLines
              && Gather(Classify(file.value)).Success? && Interpretable(Gather(Classify(file.value)).value.entries, toFloat)
  {
    match file
    case None => Failure(CannotOpen)
    case Some(lines) =>
      var ls := Classify(lines);
      GatherFailsIffMalformed(ls);
      match Gather(ls)
      case Failure(e) => Failure(e)
      case Success(g) =>
        GatherCount(ls);
        if g.count != ExpectedLines then Failure(WrongLineCount(g.count))
        else BuildMapa(g.entries, toFloat)
  }

  /** A built `Mapa` holds the values of `map_dict`: the text fields as read,
      the colour codes as the comma-separated pieces, and one number per
      comma-separated piece in the two numeric lists. */
  lemma BuildMapaFields(d: map<string, string>, toFloat: string -> Option<real>)
    requires BuildMapa(d, toFloat).Success?
    ensures var m := BuildMapa(d, toFloat).value;
            && m.mapaTipo == d[KeyTipo]
            && m.barraCoresOrientacao == d[KeyOrientacao]
            && m.barraCoresTitulo == d[KeyTitulo]
            && m.barraCoresPosicao == d[KeyPosicao]
            && m.barraCoresCorMinimo == d[KeyCorMinimo]
            && m.barraCoresCorMaximo == d[KeyCorMaximo]
            && Join(m.barraCoresCodigos, ',') == d[KeyCodigos]
            && |m.barraCoresCodigos| == Occurrences(d[KeyCodigos], ',') + 1
            && |m.barraCoresValores| == Occurrences(d[KeyValores], ',') + 1
            && |m.mapaCoordenadas| == Occurrences(d[KeyCoordenadas], ',') + 1
            && (forall i :: 0 <= i < |m.barraCoresValores| ==>
                  Some(m.barraCoresValores[i]) == toFloat(Split(d[KeyValores], ',')[i]))
            && (forall i :: 0 <= i < |m.mapaCoordenadas| ==>
                  Some(m.mapaCoordenadas[i]) == toFloat(Split(d[KeyCoordenadas], ',')[i]))
            && Some(m.barraCoresDist) == toFloat(d[KeyDist])
            && Some(m.barraCoresTam) == toFloat(d[KeyTam])
  {
    JoinSplit(d[KeyCodigos], ',');
  }

  /** A loaded template is the record built from the final `map_dict`. */
  lemma LoadedFromDict(lines: seq<string>, toFloat: string -> Option<real>)
    requires LoadMapTemplate(Some(lines), toFloat).Success?
    ensures Gather(Classify(lines)).Success?
    ensures LoadMapTemplate(Some(lines), toFloat) == BuildMapa(Gather(Classify(lines)).value.entries, toFloat)
  {
    GatherFailsIffMalformed(Classify(lines));
  }

  /** The outcome depends on the file only through what the loop gathers. */
  lemma SameGatherSameLoad(l1: seq<string>, l2: seq<string>, toFloat: string -> Option<real>)
    requires Gather(Classify(l1)) == Gather(Classify(l2))
    ensures LoadMapTemplate(Some(l1), toFloat) == LoadMapTemplate(Some(l2), toFloat)
  {
  }

  /** A blank or comment line anywhere in the file never changes the outcome. */
  lemma SkippedLineIrrelevant(a: seq<string>, raw: string, b: seq<string>, toFloat: string -> Option<real>)
    requires IsSkipped(raw)
    ensures LoadMapTemplate(Some(a + [raw] + b), toFloat) == LoadMapTemplate(Some(a + b), toFloat)
  {
    ClassifyLineSpec(raw);
    assert Classify(a + [raw] + b) == Classify(a) + [Skipped] + Classify(b) by {
      ClassifyAppend(a + [raw], b);
      ClassifyAppend(a, [raw]);
      assert Classify([raw]) == [Skipped];
    }
    assert Classify(a + b) == Classify(a) + Classify(b) by {
      ClassifyAppend(a, b);
    }
    SkippedDrops(Classify(a), Classify(b));
    SameGatherSameLoad(a + [raw] + b, a + b, toFloat);
  }

  /** A line count other than eleven fails even when every required key is present. */
  lemma LineCountDecidesFirst(lines: seq<string>, toFloat: string -> Option<real>)
    requires Malformed !in Classify(lines)
    requires CountedLines(Classify(lines)) != ExpectedLines
    ensures LoadMapTemplate(Some(lines), toFloat) == Failure(WrongLineCount(CountedLines(Classify(lines))))
  {
  }

  /** Eleven counted lines with a repeated key leave some required key missing,
      so loading fails even though the line count is right. */
  lemma {:induction false} RepeatedKeyFails(lines: seq<string>, i: nat, j: nat, toFloat: string -> Option<real>)
    requires i < j < |lines|
    requires ClassifyLine(lines[i]).Entry? && ClassifyLine(lines[j]).Entry?
    requires ClassifyLine(lines[i]).key == ClassifyLine(lines[j]).key
    requires CountedLines(Classify(lines)) == ExpectedLines
    ensures LoadMapTemplate(Some(lines), toFloat).Failure?
  {
    var ls := Classify(lines);
    if Gather(ls).Success? {
      RepeatedKeyShrinks(ls, i, j);
      GatherCount(ls);
      var d := Gather(ls).value.entries;
      if RequiredKeys <= d.Keys {
        RequiredKeyCount();
        SubsetCardinality(RequiredKeys, d.Keys);
      }
    }
  }

  lemma SubsetCardinality(a: set<string>, b: set<string>)
    requires a <= b
    ensures |a| <= |b|
  {
    assert b == a + (b - a);
  }
}
