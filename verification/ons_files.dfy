/** ONS forecast file names (functions.py): `check_nomearquivo*` decide whether a
    name has the expected shape, `dados_Mapa*` pull the map name and the dates
    out of it. A name looks like `MAPA_pDDMMYYaDDMMYY.dat`; the dates are the
    six-character slices [1:7], [8:14] and (for accumulated and differential
    maps) [15:21] of the second `_`-separated segment of the basename. */
module OnsFiles {

  import opened Results
  import opened Text
  import opened Calendar

  /** Where the date slices of the second segment start. */
  const RunAt: nat := 1
  const SecondAt: nat := 8
  const ThirdAt: nat := 15

  /** `nome_arquivo.split('_')[0]`: the basename up to its first `_`, or all
      of it when it has none. */
  function MapName(path: string): (r: string)
    ensures '_' !in r
    ensures r <= Basename(path)
    ensures |r| == |Basename(path)| || Basename(path)[|r|] == '_'
  {
    var parts := Split(Basename(path), '_');
    JoinSplit(Basename(path), '_');
    assert |parts| > 1 ==> Join(parts, '_') == parts[0] + ['_'] + Join(parts[1..], '_');
    parts[0]
  }

  /** `nome_arquivo.split('_')[1]`: the text between the first and the second
      `_` of the basename (or its end); defined only when there is a `_`. */
  function DateField(path: string): (r: Option<string>)
    ensures r.Some? <==> '_' in Basename(path)
    ensures r.Some? ==> '_' !in r.value
    ensures r.Some? ==> MapName(path) + "_" + r.value <= Basename(path)
    ensures r.Some? ==> var n := |MapName(path)| + 1 + |r.value|;
                        n == |Basename(path)| || Basename(path)[n] == '_'
  {
    var b := Basename(path);
    var parts := Split(b, '_');
    OccurrencesPositive(b, '_');
    if |parts| >= 2 then
      SplitFirstTwo(b, '_');
      assert MapName(path) + "_" + parts[1] == parts[0] + ['_'] + parts[1];
      Some(parts[1])
    else None
  }

  /** `datetime.strptime(field[lo:lo+6], "%d%m%y")`. */
  function DateAt(field: string, lo: nat): (r: Option<Date>)
    ensures r.Some? <==> lo + 6 <= |field| && ParseDdmmyy(field[lo..lo + 6]).Some?
    ensures r.Some? ==> r == ParseDdmmyy(field[lo..lo + 6])
  {
    ParseDdmmyy(Slice(field, lo, lo + 6))
  }

  /** `check_nomearquivo`: a second segment whose slices [1:7] and [8:14] are dates. */
  function CheckNomeArquivo(path: string): (ok: bool)
    ensures ok <==> DateField(path).Some? && var f := DateField(path).value;
                    |f| >= 14 && ParseDdmmyy(f[1..7]).Some? && ParseDdmmyy(f[8..14]).Some?
    ensures ok ==> '_' in Basename(path)
    ensures ok ==> var f := DateField(path).value;
                   |f| >= 14 && AllDigits(f[1..7]) && AllDigits(f[8..14])
  {
    match DateField(path)
    case None => false
    case Some(f) =>
      var ok := DateAt(f, RunAt).Some? && DateAt(f, SecondAt).Some?;
      assert |f| >= 14 ==> Slice(f, 1, 7) == f[1..7] && Slice(f, 8, 14) == f[8..14];
      ok
  }

  /** `check_nomearquivo_acc`: the slices [1:7], [8:14] and [15:21] are dates. */
  function CheckNomeArquivoAcc(path: string): (ok: bool)
    ensures ok <==> DateField(path).Some? && var f := DateField(path).value;
                    |f| >= 21 && ParseDdmmyy(f[1..7]).Some? && ParseDdmmyy(f[8..14]).Some? &&
                    ParseDdmmyy(f[15..21]).Some?
    ensures ok ==> DateField(path).Some? && var f := DateField(path).value;
                   |f| >= 21 && AllDigits(f[15..21])
  {
    match DateField(path)
    case None => false
    case Some(f) =>
      var ok := DateAt(f, RunAt).Some? && DateAt(f, SecondAt).Some? && DateAt(f, ThirdAt).Some?;
      assert |f| >= 21 ==> Slice(f, 1, 7) == f[1..7] && Slice(f, 8, 14) == f[8..14] && Slice(f, 15, 21) == f[15..21];
      ok
  }

  /** `check_nomearquivo_diff`: written separately in the source, same three slices. */
  function CheckNomeArquivoDiff(path: string): (ok: bool)
    ensures ok <==> DateField(path).Some? && var f := DateField(path).value;
                    |f| >= 21 && ParseDdmmyy(f[1..7]).Some? && ParseDdmmyy(f[8..14]).Some? &&
                    ParseDdmmyy(f[15..21]).Some?
    ensures ok ==> DateField(path).Some? && var f := DateField(path).value;
                   |f| >= 21 && AllDigits(f[15..21])
  {
    match DateField(path)
    case None => false
    case Some(f) =>
      var ok := DateAt(f, RunAt).Some? && DateAt(f, SecondAt).Some? && DateAt(f, ThirdAt).Some?;
      assert |f| >= 21 ==> Slice(f, 1, 7) == f[1..7] && Slice(f, 8, 14) == f[8..14] && Slice(f, 15, 21) == f[15..21];
      ok
  }

  /** The accumulated and differential checks accept exactly the same names,
      and each of them implies the plain check. */
  lemma ThreeDateChecksAgree(path: string)
    ensures CheckNomeArquivoAcc(path) <==> CheckNomeArquivoDiff(path)
    ensures CheckNomeArquivoAcc(path) ==> CheckNomeArquivo(path)
  {
  }

  /** The separator characters at positions 0 and 7 of the second segment
      are never looked at. */
  lemma SeparatorsNotChecked(f: string, a: char, b: char)
    requires |f| >= 8
    ensures var g := [a] + f[1..7] + [b] + f[8..];
            && DateAt(g, RunAt) == DateAt(f, RunAt)
            && DateAt(g, SecondAt) == DateAt(f, SecondAt)
            && DateAt(g, ThirdAt) == DateAt(f, ThirdAt)
  {
    var g := [a] + f[1..7] + [b] + f[8..];
    assert |g| == |f|;
    assert g[1..7] == f[1..7];
    assert g[8..] == f[8..];
    SameTail(g, f, 8, 8);
    SameTail(g, f, 8, 15);
  }

  /** Slices starting at or after `k` see only the characters from `k` on. */
  lemma SameTail(g: string, f: string, k: nat, lo: nat)
    requires |g| == |f| && k <= |f| && k <= lo
    requires g[k..] == f[k..]
    ensures Slice(g, lo, lo + 6) == Slice(f, lo, lo + 6)
  {
    if lo < |f| {
      var hi := if lo + 6 < |f| then lo + 6 else |f|;
      assert g[lo..hi] == g[k..][lo - k..hi - k];
      assert f[lo..hi] == f[k..][lo - k..hi - k];
    }
  }

  // ---------------------------------------------------------------------
  // dados_Mapa*

  /** What `dados_Mapa` and `dados_Mapa_acc` return. */
  datatype MapaInfo = MapaInfo(nomeMapa: string, dataRodada: string, dataPrevisaoIni: string, dataPrevisaoFim: string)

  /** What `dados_Mapa_diff` returns. */
  datatype MapaDiffInfo = MapaDiffInfo(
    nomeMapa: string, dataRodada1: string, dataRodada2: string, dataPrevisaoIni: string, dataPrevisaoFim: string)

  /** The exceptions these functions let through: `IndexError` when the
      basename has no second segment, `ValueError` when a slice is not a date. */
  datatype NameError = NoDateField | NotADate(at: nat)

  /** The date at `lo`, or the `ValueError` strptime raises. */
  function DateOrError(f: string, lo: nat): (r: Result<Date, NameError>)
    ensures r.Success? <==> DateAt(f, lo).Some?
    ensures r.Success? ==> r.value == DateAt(f, lo).value && Valid(r.value) && InTwoDigitRange(r.value)
    ensures r.Failure? ==> r.error == NotADate(lo)
  {
    match DateAt(f, lo)
    case None => Failure(NotADate(lo))
    case Some(d) => Success(d)
  }

  function FieldOrError(path: string): (r: Result<string, NameError>)
    ensures r.Success? <==> DateField(path).Some?
    ensures r.Success? ==> r.value == DateField(path).value
    ensures r.Failure? ==> r.error == NoDateField
  {
    match DateField(path)
    case None => Failure(NoDateField)
    case Some(f) => Success(f)
  }

  /** Reading back a parsed date and the day before it, both written as
      `dd/mm/YYYY`, gives the date and the calendar day before it. */
  lemma ShownDates(d: Date)
    requires Valid(d) && InTwoDigitRange(d)
    ensures ReadDmy(FormatDmy(d)) == Some(d)
    ensures ReadDmy(FormatDmy(Previous(d))) == Some(Previous(d))
    ensures Next(Previous(d)) == d
  {
    FormatDmyRoundTrip(d);
    FormatDmyRoundTrip(Previous(d));
    NextOfPrevious(d);
  }

  /** `dados_Mapa`: the map name, the run date [1:7], the forecast day [8:14]
      and the day before it, each written as `dd/mm/YYYY`. */
  function DadosMapa(path: string): (r: Result<MapaInfo, NameError>)
    ensures r.Success? <==> CheckNomeArquivo(path)
    ensures r.Failure? ==> r.error == (if DateField(path).None? then NoDateField
                                       else if DateAt(DateField(path).value, RunAt).None? then NotADate(RunAt)
                                       else NotADate(SecondAt))
    ensures r.Success? ==>
              var f := DateField(path).value;
              var fim := DateAt(f, SecondAt).value;
              && r.value.nomeMapa == MapName(path)
              && r.value.dataRodada == FormatDmy(DateAt(f, RunAt).value)
              && r.value.dataPrevisaoIni == FormatDmy(Previous(fim))
              && r.value.dataPrevisaoFim == FormatDmy(fim)
  {
    var f :- FieldOrError(path);
    var rodada :- DateOrError(f, RunAt);
    var fim :- DateOrError(f, SecondAt);
    Success(MapaInfo(MapName(path), FormatDmy(rodada), FormatDmy(Previous(fim)), FormatDmy(fim)))
  }

  /** `dados_Mapa_acc`: the run date [1:7], the day before [8:14] as the start
      of the accumulation and [15:21] as its end; nothing requires the start to
      precede the end. */
  function DadosMapaAcc(path: string): (r: Result<MapaInfo, NameError>)
    ensures r.Success? <==> CheckNomeArquivoAcc(path)
    ensures r.Failure? ==> r.error == (if DateField(path).None? then NoDateField
                                       else if DateAt(DateField(path).value, RunAt).None? then NotADate(RunAt)
                                       else if DateAt(DateField(path).value, SecondAt).None? then NotADate(SecondAt)
                                       else NotADate(ThirdAt))
    ensures r.Success? ==>
              var f := DateField(path).value;
              && r.value.nomeMapa == MapName(path)
              && r.value.dataRodada == FormatDmy(DateAt(f, RunAt).value)
              && r.value.dataPrevisaoIni == FormatDmy(Previous(DateAt(f, SecondAt).value))
              && r.value.dataPrevisaoFim == FormatDmy(DateAt(f, ThirdAt).value)
  {
    var f :- FieldOrError(path);
    var rodada :- DateOrError(f, RunAt);
    var ini :- DateOrError(f, SecondAt);
    var fim :- DateOrError(f, ThirdAt);
    Success(MapaInfo(MapName(path), FormatDmy(rodada), FormatDmy(Previous(ini)), FormatDmy(fim)))
  }

  /** `dados_Mapa_diff`: the two run dates [1:7] and [8:14], and the forecast
      day [15:21] with the day before it. The `try` and `except` branches for
      the end date evaluate the same expression, which has already succeeded
      for the start date, so the end date is computed once. */
  function DadosMapaDiff(path: string): (r: Result<MapaDiffInfo, NameError>)
    ensures r.Success? <==> CheckNomeArquivoDiff(path)
    ensures r.Failure? ==> r.error == (if DateField(path).None? then NoDateField
                                       else if DateAt(DateField(path).value, RunAt).None? then NotADate(RunAt)
                                       else if DateAt(DateField(path).value, SecondAt).None? then NotADate(SecondAt)
                                       else NotADate(ThirdAt))
    ensures r.Success? ==>
              var f := DateField(path).value;
              var fim := DateAt(f, ThirdAt).value;
              && r.value.nomeMapa == MapName(path)
              && r.value.dataRodada1 == FormatDmy(DateAt(f, RunAt).value)
              && r.value.dataRodada2 == FormatDmy(DateAt(f, SecondAt).value)
              && r.value.dataPrevisaoIni == FormatDmy(Previous(fim))
              && r.value.dataPrevisaoFim == FormatDmy(fim)
  {
    var f :- FieldOrError(path);
    var rodada1 :- DateOrError(f, RunAt);
    var rodada2 :- DateOrError(f, SecondAt);
    var fim :- DateOrError(f, ThirdAt);
    Success(MapaDiffInfo(MapName(path), FormatDmy(rodada1), FormatDmy(rodada2), FormatDmy(Previous(fim)), FormatDmy(fim)))
  }

  /** Read back, the dates `dados_Mapa` writes are the run date and the
      forecast day of the name, and its start date is the day before the end. */
  lemma DadosMapaReadBack(path: string)
    requires DadosMapa(path).Success?
    ensures var info := DadosMapa(path).value;
            var f := DateField(path).value;
            && ReadDmy(info.dataRodada) == DateAt(f, RunAt)
            && ReadDmy(info.dataPrevisaoFim) == DateAt(f, SecondAt)
            && ReadDmy(info.dataPrevisaoIni).Some?
            && Next(ReadDmy(info.dataPrevisaoIni).value) == ReadDmy(info.dataPrevisaoFim).value
  {
    var f := DateField(path).value;
    ShownDates(DateAt(f, RunAt).value);
    ShownDates(DateAt(f, SecondAt).value);
  }

  /** Read back, `dados_Mapa_acc` gives the day before the second date as the
      start and the third date as the end. */
  lemma DadosMapaAccReadBack(path: string)
    requires DadosMapaAcc(path).Success?
    ensures var info := DadosMapaAcc(path).value;
            var f := DateField(path).value;
            && ReadDmy(info.dataRodada) == DateAt(f, RunAt)
            && ReadDmy(info.dataPrevisaoIni).Some?
            && Next(ReadDmy(info.dataPrevisaoIni).value) == DateAt(f, SecondAt).value
            && ReadDmy(info.dataPrevisaoFim) == DateAt(f, ThirdAt)
  {
    var f := DateField(path).value;
    ShownDates(DateAt(f, RunAt).value);
    ShownDates(DateAt(f, SecondAt).value);
    ShownDates(DateAt(f, ThirdAt).value);
  }

  /** Read back, `dados_Mapa_diff` gives both run dates, the forecast day, and
      the day before it as the start. */
  lemma DadosMapaDiffReadBack(path: string)
    requires DadosMapaDiff(path).Success?
    ensures var info := DadosMapaDiff(path).value;
            var f := DateField(path).value;
            && ReadDmy(info.dataRodada1) == DateAt(f, RunAt)
            && ReadDmy(info.dataRodada2) == DateAt(f, SecondAt)
            && ReadDmy(info.dataPrevisaoFim) == DateAt(f, ThirdAt)
            && ReadDmy(info.dataPrevisaoIni).Some?
            && Next(ReadDmy(info.dataPrevisaoIni).value) == ReadDmy(info.dataPrevisaoFim).value
  {
    var f := DateField(path).value;
    ShownDates(DateAt(f, RunAt).value);
    ShownDates(DateAt(f, SecondAt).value);
    ShownDates(DateAt(f, ThirdAt).value);
  }

  // ---------------------------------------------------------------------
  // Names built the ONS way

  /** The second segment of a name built as `name_` + sep + ddmmyy + sep + ddmmyy + tail. */
  lemma {:induction false} BuiltField(dir: string, name: string, field: string)
    requires '_' !in name && '/' !in name && '_' !in field && '/' !in field
    ensures DateField(dir + "/" + name + "_" + field) == Some(field)
    ensures MapName(dir + "/" + name + "_" + field) == name
  {
    var base := name + "_" + field;
    assert '/' !in base;
    BasenameAfterSlash(dir, base);
    assert dir + "/" + name + "_" + field == dir + "/" + base;
    SegmentsOfBasename(dir + "/" + base, name, field);
  }

  /** A basename `name_field` with no further `_` splits into exactly those two. */
  lemma SegmentsOfBasename(path: string, name: string, field: string)
    requires '_' !in name && '_' !in field
    requires Basename(path) == name + "_" + field
    ensures Split(Basename(path), '_') == [name, field]
    ensures DateField(path) == Some(field)
    ensures MapName(path) == name
  {
    assert Basename(path) == name + ['_'] + field;
    SplitAtFirst(name, field, '_');
    SplitNoSeparator(field, '_');
  }

  /** The date slices of a second segment laid out as sep + ddmmyy + sep + ddmmyy + rest. */
  lemma TwoDatesAt(p: char, d1: Date, a: char, d2: Date, rest: string)
    requires Valid(d1) && InTwoDigitRange(d1) && Valid(d2) && InTwoDigitRange(d2)
    ensures var field := [p] + Ddmmyy(d1) + [a] + Ddmmyy(d2) + rest;
            DateAt(field, RunAt) == Some(d1) && DateAt(field, SecondAt) == Some(d2)
  {
    var field := [p] + Ddmmyy(d1) + [a] + Ddmmyy(d2) + rest;
    assert Slice(field, 1, 7) == Ddmmyy(d1);
    assert Slice(field, 8, 14) == Ddmmyy(d2);
    DdmmyyRoundTrip(d1);
    DdmmyyRoundTrip(d2);
  }

  /** The third date slice of a second segment whose first fourteen characters are `head`. */
  lemma ThirdDateAt(head: string, b: char, d3: Date, tail: string)
    requires |head| == 14
    requires Valid(d3) && InTwoDigitRange(d3)
    ensures DateAt(head + ([b] + Ddmmyy(d3) + tail), ThirdAt) == Some(d3)
  {
    var field := head + ([b] + Ddmmyy(d3) + tail);
    assert Slice(field, 15, 21) == Ddmmyy(d3);
    DdmmyyRoundTrip(d3);
  }

  /** Any name `dir/MAPA_pDDMMYYaDDMMYY…` built from two dates the two-digit
      year can denote passes `check_nomearquivo`, and `dados_Mapa` returns the
      map name, the first date, and the day before and the day of the second. */
  lemma OnsNameAccepted(dir: string, name: string, p: char, d1: Date, a: char, d2: Date, tail: string)
    requires '_' !in name && '/' !in name
    requires p != '_' && p != '/' && a != '_' && a != '/' && '_' !in tail && '/' !in tail
    requires Valid(d1) && InTwoDigitRange(d1) && Valid(d2) && InTwoDigitRange(d2)
    ensures var path := dir + "/" + name + "_" + ([p] + Ddmmyy(d1) + [a] + Ddmmyy(d2) + tail);
            && CheckNomeArquivo(path)
            && DadosMapa(path) == Success(MapaInfo(name, FormatDmy(d1), FormatDmy(Previous(d2)), FormatDmy(d2)))
  {
    var field := [p] + Ddmmyy(d1) + [a] + Ddmmyy(d2) + tail;
    assert '_' !in field && '/' !in field;
    BuiltField(dir, name, field);
    TwoDatesAt(p, d1, a, d2, tail);
  }

  /** Any name `dir/MAPA_pDDMMYYaDDMMYYaDDMMYY…` built from three in-range dates
      passes `check_nomearquivo_acc`, in whatever order the dates come, and
      `dados_Mapa_acc` returns the day before the second date and the third. */
  lemma OnsAccNameAccepted(dir: string, name: string, p: char, d1: Date, a: char, d2: Date,
                           b: char, d3: Date, tail: string)
    requires '_' !in name && '/' !in name
    requires p != '_' && p != '/' && a != '_' && a != '/' && b != '_' && b != '/'
    requires '_' !in tail && '/' !in tail
    requires Valid(d1) && InTwoDigitRange(d1) && Valid(d2) && InTwoDigitRange(d2)
    requires Valid(d3) && InTwoDigitRange(d3)
    ensures var path := dir + "/" + name + "_" + ([p] + Ddmmyy(d1) + [a] + Ddmmyy(d2) + ([b] + Ddmmyy(d3) + tail));
            && CheckNomeArquivoAcc(path)
            && DadosMapaAcc(path) == Success(MapaInfo(name, FormatDmy(d1), FormatDmy(Previous(d2)), FormatDmy(d3)))
  {
    var rest := [b] + Ddmmyy(d3) + tail;
    var field := [p] + Ddmmyy(d1) + [a] + Ddmmyy(d2) + rest;
    assert '_' !in field && '/' !in field;
    BuiltField(dir, name, field);
    TwoDatesAt(p, d1, a, d2, rest);
    ThirdDateAt([p] + Ddmmyy(d1) + [a] + Ddmmyy(d2), b, d3, tail);
  }
}
