/**
 * `list_pathways_for_gene` (backend/main.py): the pathway overlays available
 * for a gene, read off the names of its `<gene>_<pathway>_GSEA.csv_gdf.csv`
 * files and sorted. The directory listing is an input.
 */
module FlatmapFiles {
  import opened Wrappers
  import Sorting
  import StrOrder

  const Suffix: string := "_GSEA.csv_gdf.csv"

  /**
   * The pathway named by one file, if the name has the shape the glob and
   * the regular expression both accept: the gene, `_`, a non-empty name
   * with no line break (`.` does not match one), then the suffix.
   */
  function PathwayName(gene: string, file: string): Option<string> {
    var lo := |gene| + 1;
    if |file| > lo + |Suffix| && file[..|gene|] == gene && file[|gene|] == '_' && file[|file| - |Suffix|..] == Suffix then
      var name := file[lo..|file| - |Suffix|];
      if '\n' in name then None else Some(name)
    else None
  }

  /** The file that names pathway `name` of `gene`. */
  function FileName(gene: string, name: string): string {
    gene + "_" + name + Suffix
  }

  /** Exactly the files spelled `gene_<name>_GSEA.csv_gdf.csv` yield `name`. */
  lemma PathwayNameExact(gene: string, file: string, name: string)
    ensures PathwayName(gene, file) == Some(name) <==> file == FileName(gene, name) && |name| > 0 && '\n' !in name
  {
    var lo := |gene| + 1;
    if file == FileName(gene, name) && |name| > 0 {
      assert file[..|gene|] == gene;
      assert file[|gene|] == '_';
      assert file[|file| - |Suffix|..] == Suffix;
      assert file[lo..|file| - |Suffix|] == name;
    }
    if PathwayName(gene, file) == Some(name) {
      assert file == file[..|gene|] + [file[|gene|]] + file[lo..|file| - |Suffix|] + file[|file| - |Suffix|..];
    }
  }

  /** The loop over the matching files, in listing order. */
  function Names(gene: string, files: seq<string>): seq<string> {
    if files == [] then []
    else (match PathwayName(gene, files[0]) case Some(n) => [n] case None => []) + Names(gene, files[1..])
  }

  lemma {:induction false} NamesExact(gene: string, files: seq<string>, name: string)
    ensures name in Names(gene, files) <==> FileName(gene, name) in files && |name| > 0 && '\n' !in name
  {
    if files != [] {
      NamesExact(gene, files[1..], name);
      PathwayNameExact(gene, files[0], name);
      assert files == [files[0]] + files[1..];
    }
  }

  lemma {:induction false} NamesCount(gene: string, files: seq<string>, name: string)
    requires |name| > 0 && '\n' !in name
    ensures multiset(Names(gene, files))[name] == multiset(files)[FileName(gene, name)]
  {
    if files != [] {
      NamesCount(gene, files[1..], name);
      PathwayNameExact(gene, files[0], name);
      assert files == [files[0]] + files[1..];
    }
  }

  /** `list_pathways_for_gene(gene)` over the directory listing `files`. */
  function ListPathways(gene: string, files: seq<string>): (r: seq<string>)
    ensures multiset(r) == multiset(Names(gene, files))
    ensures Sorting.Sorted(r, StrOrder.StrLe)
  {
    StrOrder.StrLeTotalOrder();
    Sorting.Sort(Names(gene, files), StrOrder.StrLe)
  }

  /**
   * The returned list holds each pathway name once per file naming it and
   * nothing else, in ascending order.
   */
  lemma ListPathwaysExact(gene: string, files: seq<string>, name: string)
    ensures name in ListPathways(gene, files) <==> FileName(gene, name) in files && |name| > 0 && '\n' !in name
    ensures |name| > 0 && '\n' !in name ==>
      multiset(ListPathways(gene, files))[name] == multiset(files)[FileName(gene, name)]
  {
    NamesExact(gene, files, name);
    var r := ListPathways(gene, files);
    assert name in r <==> name in multiset(r);
    assert name in Names(gene, files) <==> name in multiset(Names(gene, files));
    if |name| > 0 && '\n' !in name {
      NamesCount(gene, files, name);
    }
  }

  /**
   * `sorted(paths)` is determined by its contents: any ascending
   * arrangement of the collected names is the returned list.
   */
  lemma ListPathwaysUnique(gene: string, files: seq<string>, r: seq<string>)
    requires multiset(r) == multiset(Names(gene, files))
    requires Sorting.Sorted(r, StrOrder.StrLe)
    ensures r == ListPathways(gene, files)
  {
    StrOrder.StrLeTotalOrder();
    Sorting.SortedPermutationUnique(r, ListPathways(gene, files), StrOrder.StrLe);
  }

  /** Files for other genes, or with other suffixes, contribute nothing. */
  lemma ForeignFileIgnored(gene: string, file: string)
    requires forall name :: file != FileName(gene, name)
    ensures PathwayName(gene, file).None?
  {
    if PathwayName(gene, file).Some? {
      PathwayNameExact(gene, file, PathwayName(gene, file).value);
    }
  }
}
