/** The class-name-to-file mapping of the PSR-4 autoloader. */
module Autoload {
  import opened Results
  import opened Text

  const Prefixo: string := "SistemaBancario\\"

  /** `__DIR__ . '/src/'`. */
  function BaseDir(dir: string): string { dir + "/src/" }

  /**
   * The file the autoloader would require for `className`: None for a class outside the
   * project's namespace; otherwise the base directory, the rest of the name with every `\`
   * made a directory separator, and `.php`.
   */
  function Arquivo(dir: string, className: string, sep: char): (r: Option<string>)
    ensures r.None? <==> !IsPrefix(Prefixo, className)
  {
    if !IsPrefix(Prefixo, className) then None
    else Some(BaseDir(dir) + ReplaceChar(className[|Prefixo|..], '\\', sep) + ".php")
  }
}
