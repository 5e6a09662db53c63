/** The pure steps of the `plotMapaONS*` drivers (functions.py): the folder
    guard of `deleta_arquivos`, the `dict.fromkeys` de-duplication of the
    coordinate lists, the `np.reshape(chuva, (len(lats), -1))` of the data,
    and the choice of the output file name. */
module OnsBatch {

  import opened Results
  import opened Text

  // ---------------------------------------------------------------------
  // deleta_arquivos

  /** What `deleta_arquivos` does with a folder name: clear it, or leave the
      program before touching anything. */
  datatype CleanDecision = ClearFolder(folder: string) | ExitUnknownFolder(folder: string)

  const InputFolder := "input"
  const OutputFolderName := "output"

  function FolderToClear(nomePasta: string): (d: CleanDecision)
    ensures d.ClearFolder? <==> nomePasta in {InputFolder, OutputFolderName}
    ensures d.folder == nomePasta
  {
    if nomePasta == InputFolder || nomePasta == OutputFolderName then ClearFolder(nomePasta)
    else ExitUnknownFolder(nomePasta)
  }

  // ---------------------------------------------------------------------
  // list(dict.fromkeys(xs))

  predicate NoDuplicates<T(==)>(s: seq<T>)
  {
    forall i, j :: 0 <= i < j < |s| ==> s[i] != s[j]
  }

  /** Position of the first occurrence of `x` in `xs`. */
  function FirstIndex<T(==)>(xs: seq<T>, x: T): (k: nat)
    requires x in xs
    ensures k < |xs| && xs[k] == x && x !in xs[..k]
  {
    if xs[0] == x then 0
    else
      var k := FirstIndex(xs[1..], x) + 1;
      assert xs[..k] == [xs[0]] + xs[1..][..k - 1];
      k
  }

  /** `list(dict.fromkeys(xs))`: every value once, in the order of its first
      occurrence. */
  method Dedup<T(==)>(xs: seq<T>) returns (r: seq<T>)
    ensures NoDuplicates(r)
    ensures forall x :: x in r <==> x in xs
    ensures forall a, b :: 0 <= a < b < |r| ==> FirstIndex(xs, r[a]) < FirstIndex(xs, r[b])
  {
    r := [];
    var seen: set<T> := {};
    for i := 0 to |xs|
      invariant forall x :: x in seen <==> x in r
      invariant forall x :: x in r <==> x in xs[..i]
      invariant NoDuplicates(r)
      invariant forall k :: 0 <= k < |r| ==> r[k] in xs && FirstIndex(xs, r[k]) < i
      invariant forall a, b :: 0 <= a < b < |r| ==> FirstIndex(xs, r[a]) < FirstIndex(xs, r[b])
    {
      assert xs[..i + 1] == xs[..i] + [xs[i]];
      if xs[i] !in seen {
        assert FirstIndex(xs, xs[i]) == i;
        r := r + [xs[i]];
        seen := seen + {xs[i]};
      }
    }
    assert xs[..|xs|] == xs;
  }

  /** The values occurring in `s`. */
  function Distinct<T>(s: seq<T>): set<T>
  {
    set x | x in s
  }

  /** A duplicate-free sequence has as many elements as distinct values. */
  lemma {:induction false} DistinctCount<T>(s: seq<T>)
    requires NoDuplicates(s)
    ensures |Distinct(s)| == |s|
  {
    if |s| > 0 {
      var t := s[..|s| - 1];
      assert NoDuplicates(t);
      DistinctCount(t);
      assert Distinct(s) == Distinct(t) + {s[|s| - 1]};
      assert s[|s| - 1] !in Distinct(t);
    }
  }

  // ---------------------------------------------------------------------
  // np.reshape(vals, (rows, -1))

  /** Row-major concatenation of the rows: the inverse of reshaping. */
  function Flatten<T>(rows: seq<seq<T>>): seq<T>
  {
    if |rows| == 0 then [] else rows[0] + Flatten(rows[1..])
  }

  predicate Rectangular<T>(grid: seq<seq<T>>, cols: nat)
  {
    forall i :: 0 <= i < |grid| ==> |grid[i]| == cols
  }

  /** Cut `vals` into `rows` consecutive runs of `cols` values. */
  function Chop<T>(vals: seq<T>, rows: nat, cols: nat): (grid: seq<seq<T>>)
    requires |vals| == rows * cols
    ensures |grid| == rows && Rectangular(grid, cols)
    ensures Flatten(grid) == vals
    decreases rows
  {
    if rows == 0 then []
    else
      MulPred(rows, cols);
      var rest := Chop(vals[cols..], rows - 1, cols);
      var grid := [vals[..cols]] + rest;
      assert grid[1..] == rest;
      assert vals == vals[..cols] + vals[cols..];
      grid
  }

  lemma MulPred(a: nat, b: nat)
    requires a > 0
    ensures a * b == b + (a - 1) * b
    ensures b <= a * b
  {
  }

  /** Row `i`, column `j` of the chopped values is value `i * cols + j`. */
  lemma {:induction false} ChopIndex<T>(vals: seq<T>, rows: nat, cols: nat, i: nat, j: nat)
    requires |vals| == rows * cols
    requires i < rows && j < cols
    ensures i * cols + j < |vals|
    ensures Chop(vals, rows, cols)[i][j] == vals[i * cols + j]
    decreases i
  {
    MulPred(rows, cols);
    if i > 0 {
      ChopIndex(vals[cols..], rows - 1, cols, i - 1, j);
      MulPred(i, cols);
      assert Chop(vals, rows, cols)[i] == Chop(vals[cols..], rows - 1, cols)[i - 1];
    }
  }

  /** Why `np.reshape` refused: `size` values do not fill `rows` equal rows. */
  datatype ReshapeError = CannotReshape(size: nat, rows: nat)

  /** `np.reshape(vals, (rows, -1))`: numpy infers the column count, which
      exists only for a positive row count dividing the number of values. */
  function Reshape<T>(vals: seq<T>, rows: nat): (r: Result<seq<seq<T>>, ReshapeError>)
    ensures r.Success? <==> rows > 0 && |vals| % rows == 0
    ensures r.Failure? ==> r.error == CannotReshape(|vals|, rows)
    ensures r.Success? ==> |r.value| == rows && Rectangular(r.value, |vals| / rows)
    ensures r.Success? ==> Flatten(r.value) == vals
  {
    if rows == 0 || |vals| % rows != 0 then Failure(CannotReshape(|vals|, rows))
    else
      ExactDivision(|vals|, rows);
      Success(Chop(vals, rows, |vals| / rows))
  }

  lemma ExactDivision(n: nat, d: nat)
    requires d > 0 && n % d == 0
    ensures n == d * (n / d)
  {
  }

  /** The reshaped data is row-major: row `i`, column `j` holds value
      `i * cols + j`. */
  lemma ReshapeRowMajor<T>(vals: seq<T>, rows: nat, i: nat, j: nat)
    requires Reshape(vals, rows).Success?
    requires i < rows && j < |vals| / rows
    ensures i * (|vals| / rows) + j < |vals|
    ensures Reshape(vals, rows).value[i][j] == vals[i * (|vals| / rows) + j]
  {
    ExactDivision(|vals|, rows);
    ChopIndex(vals, rows, |vals| / rows, i, j);
  }

  lemma {:induction false} FlattenLength<T>(grid: seq<seq<T>>, cols: nat)
    requires Rectangular(grid, cols)
    ensures |Flatten(grid)| == |grid| * cols
  {
    if |grid| > 0 {
      FlattenLength(grid[1..], cols);
    }
  }

  lemma {:induction false} ChopFlatten<T>(grid: seq<seq<T>>, cols: nat)
    requires Rectangular(grid, cols)
    ensures |Flatten(grid)| == |grid| * cols
    ensures Chop(Flatten(grid), |grid|, cols) == grid
  {
    FlattenLength(grid, cols);
    if |grid| > 0 {
      ChopFlatten(grid[1..], cols);
      var f := Flatten(grid);
      assert f == grid[0] + Flatten(grid[1..]);
      assert f[..cols] == grid[0];
      assert f[cols..] == Flatten(grid[1..]);
      assert [grid[0]] + grid[1..] == grid;
    }
  }

  /** Round trip the other way: reshaping the flattening of a rectangular grid
      with at least one row gives the grid back. */
  lemma ReshapeFlatten<T>(grid: seq<seq<T>>, cols: nat)
    requires |grid| > 0 && Rectangular(grid, cols)
    ensures Reshape(Flatten(grid), |grid|) == Success(grid)
  {
    ChopFlatten(grid, cols);
    MulDiv(|grid|, cols);
  }

  lemma MulDiv(n: nat, c: nat)
    requires n > 0
    ensures (n * c) % n == 0 && (n * c) / n == c
  {
    var q := (n * c) / n;
    var r := (n * c) % n;
    assert n * c == n * q + r;
    assert n * (c - q) == r;
    MulBounds(n, c - q);
  }

  lemma MulBounds(n: int, k: int)
    requires n > 0
    ensures k >= 1 ==> n * k >= n
    ensures k <= -1 ==> n * k <= -n
  {
  }

  // ---------------------------------------------------------------------
  // The grid handed to plotarMapa

  /** Coordinates without repeats and the data as one row per latitude. */
  datatype Grid = Grid(lons: seq<real>, lats: seq<real>, data: seq<seq<real>>)

  /** The de-duplication and reshape steps of `plotMapaONS*`, applied to the
      three columns of the data file after sorting. The reshape succeeds
      exactly when the data fill one row per distinct latitude. */
  method PrepareGrid(lons: seq<real>, lats: seq<real>, chuva: seq<real>) returns (r: Result<Grid, ReshapeError>)
    ensures r.Success? <==> |Distinct(lats)| > 0 && |chuva| % |Distinct(lats)| == 0
    ensures r.Failure? ==> r.error == CannotReshape(|chuva|, |Distinct(lats)|)
    ensures r.Success? ==>
              && NoDuplicates(r.value.lons) && Distinct(r.value.lons) == Distinct(lons)
              && NoDuplicates(r.value.lats) && Distinct(r.value.lats) == Distinct(lats)
              && (forall x :: x in r.value.lons <==> x in lons)
              && (forall x :: x in r.value.lats <==> x in lats)
              // each kept in the order of its first occurrence
              && (forall a, b :: 0 <= a < b < |r.value.lons| ==>
                    FirstIndex(lons, r.value.lons[a]) < FirstIndex(lons, r.value.lons[b]))
              && (forall a, b :: 0 <= a < b < |r.value.lats| ==>
                    FirstIndex(lats, r.value.lats[a]) < FirstIndex(lats, r.value.lats[b]))
              && |r.value.data| == |r.value.lats|
              && Rectangular(r.value.data, |chuva| / |r.value.lats|)
              && Flatten(r.value.data) == chuva
  {
    var ulons := Dedup(lons);
    var ulats := Dedup(lats);
    assert Distinct(ulats) == Distinct(lats);
    assert Distinct(ulons) == Distinct(lons);
    DistinctCount(ulats);
    var data :- Reshape(chuva, |ulats|);
    r := Success(Grid(ulons, ulats, data));
  }

  // ---------------------------------------------------------------------
  // arquivo_destino

  const OutputDir := "output/"
  const PngSuffix := ".png"

  /** The destination of the picture: the explicit output path, or
      `output/` + the input's basename without its last extension + `.png`. */
  function OutputPath(arquivo: string, arquivoOutput: string): (r: string)
    ensures arquivoOutput != "" ==> r == arquivoOutput
    ensures arquivoOutput == "" ==>
              && |r| >= |OutputDir| + |PngSuffix|
              && r[..|OutputDir|] == OutputDir
              && r[|r| - |PngSuffix|..] == PngSuffix
              && r[|OutputDir|..|r| - |PngSuffix|] == StripExtension(Basename(arquivo))
              && r[|OutputDir|..|r| - |PngSuffix|] <= Basename(arquivo)
              && '/' !in r[|OutputDir|..]
  {
    if arquivoOutput == "" then
      var stem := StripExtension(Basename(arquivo));
      Framed(stem);
      OutputDir + stem + PngSuffix
    else arquivoOutput
  }

  lemma Framed(stem: string)
    ensures var r := OutputDir + stem + PngSuffix;
            && |r| == |OutputDir| + |stem| + |PngSuffix|
            && r[..|OutputDir|] == OutputDir
            && r[|r| - |PngSuffix|..] == PngSuffix
            && r[|OutputDir|..|r| - |PngSuffix|] == stem
            && r[|OutputDir|..] == stem + PngSuffix
  {
  }

  /** For a file `dir/stem.ext` the picture is `output/stem.png`, whatever
      directory the file sits in and however many dots the stem holds. */
  lemma OutputPathReplacesExtension(dir: string, stem: string, ext: string)
    requires '/' !in stem && '/' !in ext && '.' !in ext
    requires !AllDots(stem)
    ensures OutputPath(dir + "/" + stem + "." + ext, "") == OutputDir + stem + PngSuffix
  {
    var b := stem + "." + ext;
    assert '/' !in b;
    BasenameAfterSlash(dir, b);
    assert dir + "/" + stem + "." + ext == dir + "/" + b;
    OutputPathOfBasename(dir + "/" + b, stem, ext);
  }

  /** The same, stated for any path whose basename is `stem.ext`, with or
      without a directory in front. */
  lemma OutputPathOfBasename(arquivo: string, stem: string, ext: string)
    requires Basename(arquivo) == stem + "." + ext
    requires '.' !in ext && !AllDots(stem)
    ensures OutputPath(arquivo, "") == OutputDir + stem + PngSuffix
  {
    StripExtensionOf(stem, ext);
  }

  /** The extension `os.path.splitext` removes from `stem.ext` is `.ext`. */
  lemma StripExtensionOf(stem: string, ext: string)
    requires '.' !in ext && !AllDots(stem)
    ensures StripExtension(stem + "." + ext) == stem
  {
    var b := stem + "." + ext;
    LastDotOf(stem, ext);
    assert b[..|stem|] == stem;
  }

  lemma LastDotOf(stem: string, ext: string)
    requires '.' !in ext
    ensures LastIndexOf(stem + "." + ext, '.') == Some(|stem|)
  {
    var b := stem + "." + ext;
    assert b[|stem|] == '.';
    assert b[|stem| + 1..] == ext;
    assert forall m :: |stem| < m < |b| ==> b[m] == ext[m - |stem| - 1];
  }

  /** A file whose basename holds no `.` keeps its whole basename. */
  lemma OutputPathWithoutExtension(dir: string, name: string)
    requires '/' !in name && '.' !in name
    ensures OutputPath(dir + "/" + name, "") == OutputDir + name + PngSuffix
  {
    BasenameAfterSlash(dir, name);
  }
}
