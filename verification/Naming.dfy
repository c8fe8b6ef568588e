/** The names the daemon derives from a path: the archive's, the source's back from it, the temp file's. */
module Naming {

  import opened Text

  /** DaemonConfig, the part that names and sizes files. */
  datatype Config = Config(suffix: string, finalExtension: string, tempFolder: string, chunkSize: nat)

  /** The path up to its last dot; all of it when it has none. */
  function Stem(path: string): string
  {
    var dot := LastIndexOf(path, '.');
    if dot < 0 then path else path[..dot]
  }

  /** What the archive of `path` is called. */
  function ArchivedName(cfg: Config, path: string): string
  {
    Stem(path) + cfg.suffix + cfg.finalExtension
  }

  /** getArchivedFileName, which cuts and extends a copy of the name. */
  method GetArchivedFileName(cfg: Config, origFileName: string) returns (newFileName: string)
    ensures newFileName == ArchivedName(cfg, origFileName)
  {
    var posExt := LastIndexOf(origFileName, '.');
    newFileName := origFileName;
    if posExt == -1 {
      posExt := |origFileName|;
    } else {
      newFileName := newFileName[..posExt];
    }
    newFileName := newFileName + cfg.suffix;
    newFileName := newFileName + cfg.finalExtension;
  }

  /** The second find starts at |name| - |extension|, where it can only match the very end; a shorter
      name makes that offset wrap around and the search fail. */
  predicate IsArchive(cfg: Config, fileName: string)
  {
    LastOccurrence(fileName, cfg.suffix) >= 0 && EndsWith(fileName, cfg.finalExtension)
  }

  /** The source name an archive's name leads back to: its last suffix erased. */
  function Stripped(cfg: Config, archive: string): string
    requires IsArchive(cfg, archive)
  {
    WithoutLast(archive, cfg.suffix)
  }

  /** rfind and erase. */
  function WithoutLast(name: string, s: string): string
    requires LastOccurrence(name, s) >= 0
  {
    var pos := LastOccurrence(name, s);
    name[..pos] + name[pos + |s|..]
  }

  lemma ArchivedNameIsArchive(cfg: Config, path: string)
    ensures IsArchive(cfg, ArchivedName(cfg, path))
  {
    var a := ArchivedName(cfg, path);
    assert OccursAt(a, cfg.suffix, |Stem(path)|);
  }

  lemma ArchivedNamesCollide(cfg: Config, p: string, q: string)
    ensures ArchivedName(cfg, p) == ArchivedName(cfg, q) <==> Stem(p) == Stem(q)
  {
    var tail := cfg.suffix + cfg.finalExtension;
    assert ArchivedName(cfg, p) == Stem(p) + tail && ArchivedName(cfg, q) == Stem(q) + tail;
    if Stem(p) + tail == Stem(q) + tail {
      assert |Stem(p)| == |Stem(q)|;
      assert Stem(p) == (Stem(p) + tail)[..|Stem(p)|];
      assert Stem(q) == (Stem(q) + tail)[..|Stem(q)|];
    }
  }

  /** What a path has from its last dot on. */
  function Extension(path: string): string { path[|Stem(path)|..] }

  /** What stripping leaves of the two pieces that naming adds. */
  function StrippedTail(cfg: Config): string
  {
    var tail := cfg.suffix + cfg.finalExtension;
    assert OccursAt(tail, cfg.suffix, 0);
    Stripped(cfg, tail)
  }

  /** Stripping undoes the naming of exactly the paths whose extension is what stripping leaves of suffix
      and final extension: for every configuration. */
  lemma StrippingUndoesNaming(cfg: Config, path: string)
    ensures IsArchive(cfg, ArchivedName(cfg, path))
    ensures Stripped(cfg, ArchivedName(cfg, path)) == path <==> Extension(path) == StrippedTail(cfg)
  {
    ArchivedNameIsArchive(cfg, path);
    var stem, tail := Stem(path), cfg.suffix + cfg.finalExtension;
    assert ArchivedName(cfg, path) == stem + tail && path == stem + Extension(path);
    assert OccursAt(tail, cfg.suffix, 0);
    ErasedBehind(stem, tail, cfg.suffix);
    assert (stem + StrippedTail(cfg))[|stem|..] == StrippedTail(cfg);
  }

  /** What is erased is not in front of what naming added. */
  lemma ErasedBehind(stem: string, tail: string, s: string)
    requires OccursAt(tail, s, 0)
    ensures LastOccurrence(tail, s) >= 0 && LastOccurrence(stem + tail, s) >= 0
    ensures WithoutLast(stem + tail, s) == stem + WithoutLast(tail, s)
  {
    LastBehind(stem, tail, s);
    var whole, i := stem + tail, LastOccurrence(tail, s);
    assert whole[..|stem| + i] == stem + tail[..i] && whole[|stem| + i + |s|..] == tail[i + |s|..];
  }

  lemma OccursBehind(stem: string, tail: string, s: string, j: nat)
    ensures OccursAt(stem + tail, s, |stem| + j) <==> OccursAt(tail, s, j)
  {
    if j + |s| <= |tail| {
      assert (stem + tail)[|stem| + j..|stem| + j + |s|] == tail[j..j + |s|];
    }
  }

  lemma LastBehind(stem: string, tail: string, s: string)
    requires OccursAt(tail, s, 0)
    ensures LastOccurrence(tail, s) >= 0 && LastOccurrence(stem + tail, s) == |stem| + LastOccurrence(tail, s)
  {
    var i, k := LastOccurrence(tail, s), LastOccurrence(stem + tail, s);
    OccursBehind(stem, tail, s, i);
    OccursBehind(stem, tail, s, k - |stem|);
  }

  /** A suffix without dots, and an extension that is a dot and then none. */
  predicate UsualNames(cfg: Config)
  {
    && |cfg.suffix| > 0 && '.' !in cfg.suffix
    && |cfg.finalExtension| > 0 && cfg.finalExtension[0] == '.' && '.' !in cfg.finalExtension[1..]
  }

  /** With usual names these are the paths that end in the final extension already, as long as that does
      not itself contain the suffix. */
  lemma UsualStripping(cfg: Config, path: string)
    requires UsualNames(cfg)
    ensures IsArchive(cfg, ArchivedName(cfg, path))
    ensures Stripped(cfg, ArchivedName(cfg, path)) == path
       <==> EndsWith(path, cfg.finalExtension) && !Contains(cfg.finalExtension, cfg.suffix)
  {
    StrippingUndoesNaming(cfg, path);
    if Contains(cfg.finalExtension, cfg.suffix) {
      SuffixKept(cfg);
      ExtensionHasDot(path);
    } else {
      SuffixGone(cfg);
      ExtensionIs(cfg, path);
    }
  }

  /** The suffix in the extension is erased instead of the one that was added. */
  lemma SuffixKept(cfg: Config)
    requires UsualNames(cfg) && Contains(cfg.finalExtension, cfg.suffix)
    ensures StrippedTail(cfg) != "" && StrippedTail(cfg)[0] != '.'
  {
    var s, e := cfg.suffix, cfg.finalExtension;
    var i :| OccursAt(e, s, i);
    OccursBehind(s, e, s, i);
    var pos := LastOccurrence(s + e, s);
    assert pos >= |s| + i && (s + e)[..pos][0] == s[0];
    assert s[0] in s;
  }

  lemma SuffixGone(cfg: Config)
    requires UsualNames(cfg) && !Contains(cfg.finalExtension, cfg.suffix)
    ensures StrippedTail(cfg) == cfg.finalExtension
  {
    var s, e := cfg.suffix, cfg.finalExtension;
    assert OccursAt(s + e, s, 0);
    assert (s + e)[|s|] == '.';
    forall i | 0 < i <= |s| && i + |s| <= |s + e| ensures !OccursAt(s + e, s, i) {
      assert (s + e)[i..i + |s|][|s| - i] == '.';
    }
    forall i | i > |s| ensures !OccursAt(s + e, s, i) {
      OccursBehind(s, e, s, i - |s|);
    }
  }

  lemma ExtensionHasDot(path: string)
    ensures Extension(path) == "" || Extension(path)[0] == '.'
  {
  }

  lemma ExtensionIs(cfg: Config, path: string)
    requires UsualNames(cfg)
    ensures Extension(path) == cfg.finalExtension <==> EndsWith(path, cfg.finalExtension)
  {
    var e := cfg.finalExtension;
    if EndsWith(path, e) {
      var k := |path| - |e|;
      assert path[k] == path[k..][0] == e[0];
      forall i | k < i < |path| ensures path[i] != '.' {
        assert path[i] == path[k..][i - k] == e[1..][i - k - 1];
      }
      LastIndexIs(path, '.', k);
    }
  }

  /** Where postFile puts the upload of file `id`. */
  function TempName(cfg: Config, origFileName: string, id: nat): string
  {
    if cfg.tempFolder == "." then origFileName + "." + Decimal(id)
    else if cfg.tempFolder == "" then "./" + Decimal(id)
    else cfg.tempFolder + "/" + Decimal(id)
  }

  /** Where that is: beside the source for ".", in the working directory when nothing is set, and otherwise in
      the folder that is; under the number of the file. */
  lemma TempNameLies(cfg: Config, origFileName: string, id: nat) returns (folder: string)
    ensures StartsWith(TempName(cfg, origFileName, id), folder)
    ensures ReadNumber(TempName(cfg, origFileName, id)[|folder|..]) == (id, "")
    ensures match cfg.tempFolder
            case "." => folder == origFileName + "."
            case "" => folder == "./"
            case _ => folder == cfg.tempFolder + "/"
  {
    folder := match cfg.tempFolder
              case "." => origFileName + "."
              case "" => "./"
              case _ => cfg.tempFolder + "/";
    var t := TempName(cfg, origFileName, id);
    assert t == folder + Decimal(id);
    assert t[|folder|..] == Decimal(id) && Decimal(id) + "" == Decimal(id);
    ReadNumberBack(id, "");
  }

  /** Two files never share a temp file, whatever they are called and wherever temp files go. */
  lemma TempNamesDiffer(cfg: Config, p: string, i: nat, q: string, j: nat)
    requires TempName(cfg, p, i) == TempName(cfg, q, j)
    ensures i == j
  {
    if cfg.tempFolder == "." {
      IdAfterLastDot(p, i);
      IdAfterLastDot(q, j);
    } else {
      var prefix := if cfg.tempFolder == "" then "./" else cfg.tempFolder + "/";
      assert TempName(cfg, p, i)[|prefix|..] == Decimal(i);
      assert TempName(cfg, q, j)[|prefix|..] == Decimal(j);
    }
    DecimalInjective(i, j);
  }

  lemma IdAfterLastDot(p: string, i: nat)
    ensures var t := p + "." + Decimal(i); LastIndexOf(t, '.') >= 0 && t[LastIndexOf(t, '.') + 1..] == Decimal(i)
  {
    DecimalHasNoDot(i);
    LastIndexInto(p, '.', Decimal(i));
  }
}
