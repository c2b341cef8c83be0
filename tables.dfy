/**
 * The five constant tables of `count_lines_by_extension`.
 *
 * Each table is written as the union of consecutive blocks of the source's
 * literal, in source order. For the two dictionaries the union is map `+`,
 * which keeps the right-hand value for a key present in both, just as a later
 * entry of a Python dict literal replaces an earlier one.
 */
module PolicyTables {

  /** Extension to language label (`extension_map`). */
  function ExtensionMap(): map<string, string>
  {
    ExtensionsA() + ExtensionsB() + ExtensionsC() + ExtensionsD() + ExtensionsE()
  }

  /** Entries of lines 14-36. */
  function ExtensionsA(): map<string, string>
  {
    map[
      ".c" := "C",
      ".cpp" := "C++",
      ".h" := "C/C++ Header",
      ".py" := "Python",
      ".js" := "JavaScript",
      ".java" := "Java",
      ".css" := "CSS",
      ".wxml" := "微信模板",
      ".wxss" := "微信样式",
      ".wxs" := "微信脚本",
      ".cs" := "C#",
      ".go" := "Go",
      ".rs" := "Rust",
      ".rb" := "Ruby",
      ".php" := "PHP",
      ".swift" := "Swift",
      ".kt" := "Kotlin",
      ".ts" := "TypeScript",
      ".jsx" := "React JSX",
      ".tsx" := "React TSX"
    ]
  }

  /** Entries of lines 37-60. */
  function ExtensionsB(): map<string, string>
  {
    map[
      ".vue" := "Vue",
      ".scala" := "Scala",
      ".dart" := "Dart",
      ".r" := "R",
      ".m" := "Objective-C",
      ".mm" := "Objective-C++",
      ".sql" := "SQL",
      ".sh" := "Shell",
      ".ps1" := "PowerShell",
      ".lua" := "Lua",
      ".pl" := "Perl",
      ".ex" := "Elixir",
      ".exs" := "Elixir Script",
      ".elm" := "Elm",
      ".fs" := "F#",
      ".coffee" := "CoffeeScript",
      ".sass" := "Sass",
      ".scss" := "SCSS",
      ".less" := "Less",
      ".tf" := "Terraform",
      ".yaml" := "YAML",
      ".yml" := "YAML",
      ".json" := "JSON",
      ".proto" := "Protocol Buffers"
    ]
  }

  /** Entries of lines 62-83. */
  function ExtensionsC(): map<string, string>
  {
    map[
      ".asm" := "汇编语言",
      ".s" := "汇编语言",
      ".f90" := "Fortran",
      ".f95" := "Fortran",
      ".f" := "Fortran",
      ".for" := "Fortran",
      ".pas" := "Pascal",
      ".pp" := "Pascal",
      ".inc" := "Pascal",
      ".bas" := "Basic",
      ".vb" := "Visual Basic",
      ".vbs" := "VBScript",
      ".clj" := "Clojure",
      ".cljc" := "Clojure",
      ".cljs" := "ClojureScript",
      ".erl" := "Erlang",
      ".hrl" := "Erlang",
      ".hs" := "Haskell",
      ".lhs" := "Haskell",
      ".ml" := "OCaml",
      ".mli" := "OCaml",
      ".groovy" := "Groovy"
    ]
  }

  /** Entries of lines 84-103. */
  function ExtensionsD(): map<string, string>
  {
    map[
      ".gvy" := "Groovy",
      ".gradle" := "Gradle",
      ".tcl" := "Tcl",
      ".asp" := "ASP",
      ".aspx" := "ASP.NET",
      ".cshtml" := "Razor",
      ".vbhtml" := "Razor",
      ".jsp" := "JSP",
      ".jspx" := "JSP",
      ".php4" := "PHP",
      ".php5" := "PHP",
      ".phtml" := "PHP",
      ".nim" := "Nim",
      ".cr" := "Crystal",
      ".d" := "D",
      ".v" := "Verilog",
      ".vhd" := "VHDL",
      ".sv" := "SystemVerilog",
      ".pro" := "Prolog",
      ".pl" := "Prolog"
    ]
  }

  /** Entries of lines 104-118. */
  function ExtensionsE(): map<string, string>
  {
    map[
      ".cmake" := "CMake",
      ".dockerfile" := "Dockerfile",
      ".jenkins" := "Jenkins",
      ".bat" := "Batch",
      ".cmd" := "Batch",
      ".ino" := "Arduino",
      ".pde" := "Processing",
      ".sol" := "Solidity",
      ".nix" := "Nix",
      ".dhall" := "Dhall",
      ".graphql" := "GraphQL",
      ".gql" := "GraphQL",
      ".hcl" := "HCL",
      ".toml" := "TOML",
      ".ini" := "INI"
    ]
  }

  /** Directory names the walk prunes (`exclude_dirs`), compared against a directory's own name. */
  function ExcludeDirs(): set<string>
  {
    ExcludeDirsA() + ExcludeDirsB()
  }

  /** Entries of lines 123-146. */
  function ExcludeDirsA(): set<string>
  {
    {
      "node_modules", "venv", "env", "__pycache__", "dist", "build",
      "lib", "libs", "vendor", "packages", ".idea", ".vs",
      "ipch", "FileContentIndex", "Debug", "Release", "x64", "x86",
      ".git", ".svn", ".hg", ".tox", ".pytest_cache", ".mypy_cache"
    }
  }

  /** Entries of lines 147-170. */
  function ExcludeDirsB(): set<string>
  {
    {
      ".coverage", ".vscode", ".DS_Store", "__MACOSX", "target", "out",
      "bin", "obj", "tmp", "temp", "cache", "logs",
      "coverage", ".next", ".nuxt", "public/build", ".sass-cache", ".gradle",
      "gradle", ".cargo", "migrations", "fixtures", "assets", "docs"
    }
  }

  /** Extensions whose files are skipped (`exclude_extensions`). */
  function ExcludeExtensions(): set<string>
  {
    ExcludeExtensionsA() + ExcludeExtensionsB() + ExcludeExtensionsC()
  }

  /** Entries of lines 175-186. */
  function ExcludeExtensionsA(): set<string>
  {
    {
      ".exe", ".dll", ".so", ".dylib", ".xml", ".txt",
      ".md", ".rst", ".pyc", ".pyo", ".pyd", ".min.js",
      ".min.css", ".test.js", ".spec.js", ".log", ".lock", ".map",
      ".vsidx", ".ipch", ".suo", ".db", ".cache", ".gitignore"
    }
  }

  /** Entries of lines 187-200. */
  function ExcludeExtensionsB(): set<string>
  {
    {
      ".iml", ".swp", ".tmp", ".bak", ".old", ".orig",
      ".pdf", ".doc", ".docx", ".xls", ".xlsx", ".ppt",
      ".pptx", ".zip", ".rar", ".7z", ".tar", ".gz",
      ".bz2", ".png", ".jpg", ".jpeg", ".gif", ".svg",
      ".ico", ".mp3", ".mp4", ".avi"
    }
  }

  /** Entries of lines 201-217. */
  function ExcludeExtensionsC(): set<string>
  {
    {
      ".wav", ".flac", ".ogg", ".ttf", ".woff", ".eot",
      ".woff2", ".otf", ".env", ".config", ".conf", ".properties",
      ".d.ts", ".min.map", ".sum", ".mod", ".pb.go", ".generated.*",
      ".g.dart", ".freezed.dart", ".mock.ts", ".stub.php"
    }
  }

  /** Exact file names that are skipped (`exclude_filenames`, lines 221-250). */
  function ExcludeFilenames(): set<string>
  {
    {
      "package-lock.json", "yarn.lock", "pnpm-lock.yaml", "composer.lock",
      "Gemfile.lock", "poetry.lock", "Cargo.lock", "go.sum",
      ".eslintrc", ".prettierrc", ".editorconfig", ".browserslistrc",
      "tsconfig.json", "jest.config.js", "babel.config.js", "webpack.config.js",
      "rollup.config.js", "vite.config.js", "next.config.js", "nuxt.config.js",
      "tailwind.config.js", "postcss.config.js", "karma.conf.js", "Dockerfile",
      "docker-compose.yml", "Makefile", "Rakefile", "Jenkinsfile"
    }
  }

  /** Extension to single-line comment marker (`single_line_comment_markers`). */
  function CommentMarkers(): map<string, string>
  {
    MarkersA() + MarkersB() + MarkersC() + MarkersD()
  }

  /** Entries of lines 257-280. */
  function MarkersA(): map<string, string>
  {
    map[
      ".py" := "#",
      ".js" := "//",
      ".java" := "//",
      ".c" := "//",
      ".cpp" := "//",
      ".cs" := "//",
      ".go" := "//",
      ".rs" := "//",
      ".rb" := "#",
      ".php" := "//",
      ".swift" := "//",
      ".kt" := "//",
      ".ts" := "//",
      ".jsx" := "//",
      ".tsx" := "//",
      ".scala" := "//",
      ".dart" := "//",
      ".r" := "#",
      ".sh" := "#",
      ".ps1" := "#",
      ".lua" := "--",
      ".pl" := "#",
      ".ex" := "#",
      ".exs" := "#"
    ]
  }

  /** Entries of lines 281-304. */
  function MarkersB(): map<string, string>
  {
    map[
      ".elm" := "--",
      ".fs" := "//",
      ".coffee" := "#",
      ".sass" := "//",
      ".scss" := "//",
      ".less" := "//",
      ".tf" := "#",
      ".yaml" := "#",
      ".yml" := "#",
      ".json" := "//",
      ".proto" := "//",
      ".asm" := ";",
      ".s" := ";",
      ".f90" := "!",
      ".f95" := "!",
      ".f" := "!",
      ".for" := "!",
      ".pas" := "//",
      ".pp" := "//",
      ".inc" := "//",
      ".bas" := "'",
      ".vb" := "'",
      ".vbs" := "'",
      ".clj" := ";"
    ]
  }

  /** Entries of lines 305-328. */
  function MarkersC(): map<string, string>
  {
    map[
      ".cljc" := ";",
      ".cljs" := ";",
      ".erl" := "%",
      ".hrl" := "%",
      ".hs" := "--",
      ".lhs" := "--",
      ".ml" := "(*",
      ".mli" := "(*",
      ".groovy" := "//",
      ".gvy" := "//",
      ".gradle" := "//",
      ".tcl" := "#",
      ".asp" := "'",
      ".aspx" := "'",
      ".cshtml" := "@*",
      ".vbhtml" := "@*",
      ".jsp" := "<%--",
      ".jspx" := "<%--",
      ".php4" := "//",
      ".php5" := "//",
      ".phtml" := "//",
      ".nim" := "#",
      ".cr" := "#",
      ".d" := "//"
    ]
  }

  /** Entries of lines 329-348. */
  function MarkersD(): map<string, string>
  {
    map[
      ".v" := "//",
      ".vhd" := "--",
      ".sv" := "//",
      ".pro" := "%",
      ".pl" := "%",
      ".cmake" := "#",
      ".dockerfile" := "#",
      ".jenkins" := "#",
      ".bat" := "REM",
      ".cmd" := "REM",
      ".ino" := "//",
      ".pde" := "//",
      ".sol" := "//",
      ".nix" := "#",
      ".dhall" := "--",
      ".graphql" := "#",
      ".gql" := "#",
      ".hcl" := "#",
      ".toml" := "#",
      ".ini" := ";"
    ]
  }
  // Where the entries used by the worked examples sit, a block or two at a time.

  lemma EntriesOfExcludeDirs()
    ensures "node_modules" in ExcludeDirsA() && "public/build" in ExcludeDirsB()
  {
  }

  lemma EntriesOfExtensionsA()
    ensures ExtensionsA()[".js"] == "JavaScript" && ExtensionsA()[".py"] == "Python"
  {
  }

  lemma EntriesOfExtensionsB()
    ensures ".js" !in ExtensionsB() && ".py" !in ExtensionsB() && ExtensionsB()[".pl"] == "Perl"
  {
  }

  lemma EntriesOfExtensionsC()
    ensures ".js" !in ExtensionsC() && ".py" !in ExtensionsC() && ".pl" !in ExtensionsC()
  {
  }

  lemma EntriesOfExtensionsD()
    ensures ".js" !in ExtensionsD() && ".py" !in ExtensionsD() && ExtensionsD()[".pl"] == "Prolog"
  {
  }

  lemma EntriesOfExtensionsE()
    ensures ".js" !in ExtensionsE() && ".py" !in ExtensionsE() && ".pl" !in ExtensionsE()
  {
  }

  lemma EntriesOfExcludeExtensionsA()
    ensures ".js" !in ExcludeExtensionsA() && ".py" !in ExcludeExtensionsA() && ".pl" !in ExcludeExtensionsA()
  {
  }

  lemma EntriesOfExcludeExtensionsB()
    ensures ".js" !in ExcludeExtensionsB() && ".py" !in ExcludeExtensionsB() && ".pl" !in ExcludeExtensionsB()
  {
  }

  lemma EntriesOfExcludeExtensionsC()
    ensures ".js" !in ExcludeExtensionsC() && ".py" !in ExcludeExtensionsC() && ".pl" !in ExcludeExtensionsC()
  {
  }

  lemma EntriesOfMarkersA()
    ensures MarkersA()[".py"] == "#" && MarkersA()[".pl"] == "#"
  {
  }

  lemma EntriesOfMarkersB()
    ensures ".py" !in MarkersB() && ".pl" !in MarkersB()
  {
  }

  lemma EntriesOfMarkersC()
    ensures ".py" !in MarkersC() && ".pl" !in MarkersC()
  {
  }

  lemma EntriesOfMarkersD()
    ensures ".py" !in MarkersD() && MarkersD()[".pl"] == "%"
  {
  }

  /** The multi-dot entries sit in the first and last blocks of the excluded extensions. */
  lemma CompoundEntries()
    ensures {".min.js", ".min.css", ".test.js", ".spec.js"} <= ExcludeExtensionsA()
    ensures {".d.ts", ".min.map", ".pb.go", ".generated.*", ".g.dart", ".freezed.dart",
             ".mock.ts", ".stub.php"} <= ExcludeExtensionsC()
  {
  }
}
