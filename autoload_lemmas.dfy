/** The shape of the paths the autoloader builds. */
module AutoloadProperties {
  import opened Results
  import opened Text
  import opened Autoload

  /**
   * A mapped path starts with the base directory and ends with `.php`; between them is the
   * class name without its prefix, no longer holding `\` when the separator is another
   * character, and the class name can be read back from it when it held no separator.
   */
  lemma ArquivoSpec(dir: string, className: string, sep: char)
    requires IsPrefix(Prefixo, className)
    ensures var p := Arquivo(dir, className, sep).value;
      var meio := p[|BaseDir(dir)|..|p| - 4];
      && IsPrefix(BaseDir(dir), p) && p[|p| - 4..] == ".php"
      && |meio| == |className| - |Prefixo|
      && (sep != '\\' ==> '\\' !in meio)
      && (sep !in className[|Prefixo|..] ==> Prefixo + ReplaceChar(meio, sep, '\\') == className)
  {
    var rel := className[|Prefixo|..];
    var p := Arquivo(dir, className, sep).value;
    assert p == BaseDir(dir) + ReplaceChar(rel, '\\', sep) + ".php";
    assert p[|BaseDir(dir)|..|p| - 4] == ReplaceChar(rel, '\\', sep);
    if sep !in rel {
      ReplaceCharBack(rel, '\\', sep);
      assert className == Prefixo + rel;
    }
  }

  /** `SistemaBancario\Models\Cliente` maps to `src/Models/Cliente.php` under the project directory. */
  lemma ArquivoExemplo(dir: string, c: string)
    requires c == "SistemaBancario\\Models\\Cliente"
    ensures Arquivo(dir, c, '/') == Some(dir + "/src/Models/Cliente.php")
  {
    ExemploPrefixo(c);
    var rel := c[|Prefixo|..];
    ExemploReplace(rel);
    ExemploJunta(dir, ReplaceChar(rel, '\\', '/'));
  }

  lemma ExemploPrefixo(c: string)
    requires c == "SistemaBancario\\Models\\Cliente"
    ensures IsPrefix(Prefixo, c) && c[|Prefixo|..] == "Models\\Cliente"
  {
    assert c[..|Prefixo|] == Prefixo;
  }

  lemma ExemploReplace(rel: string)
    requires rel == "Models\\Cliente"
    ensures ReplaceChar(rel, '\\', '/') == "Models/Cliente"
  {
    var r := ReplaceChar(rel, '\\', '/');
    assert |r| == 14;
    forall i | 0 <= i < 14 ensures r[i] == "Models/Cliente"[i] {
      assert r[i] == (if rel[i] == '\\' then '/' else rel[i]);
    }
  }

  lemma ExemploJunta(dir: string, r: string)
    requires r == "Models/Cliente"
    ensures BaseDir(dir) + r + ".php" == dir + "/src/Models/Cliente.php"
  {
    assert "/src/" + "Models/Cliente" + ".php" == "/src/Models/Cliente.php";
    assert (dir + "/src/") + r + ".php" == dir + ("/src/" + r + ".php");
  }

  /** A class outside the namespace maps to nothing. */
  lemma ArquivoFora(dir: string, c: string)
    requires c == "PDO"
    ensures Arquivo(dir, c, '/') == None
  {
  }
}
