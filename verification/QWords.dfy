/** The words q's parser owns. */
module QWords {

  const QSQL_START: set<string> := {"select", "exec", "update", "delete"}
  const QSQL_NEXT: set<string> := {"from", "by", "where"}
  const ITERATORS: set<string> := {"each", "peach", "over", "scan", "prior"}
  const READERS: set<string> := {"get", "value", "eval", "reval", "parse"}
  const WRITERS: set<string> := {"set", "insert", "upsert"}
  const IMPLICIT: set<string> := {"x", "y", "z"}

  /** The words that mean nothing more to the converter than that q owns them, by their first letter. */
  predicate IsPlainWord(name: string) {
    IsEarlyWord(name) || IsMiddleWord(name) || IsLateWord(name)
  }

  predicate IsEarlyWord(name: string) {
    name in {
      "abs", "acos", "aj", "aj0", "ajf", "ajf0", "all", "and", "any", "asc", "asin", "asof", "atan", "attr",
      "avg", "avgs", "bin", "binr", "ceiling", "cols", "cor", "cos", "count", "cov", "cross", "csv", "cut",
      "deltas", "desc", "dev", "differ", "distinct", "div", "do", "dsave", "ej", "ema", "enlist", "except",
      "exit", "exp", "fby", "fills", "first", "fkeys", "flip", "floor"
    }
  }

  predicate IsMiddleWord(name: string) {
    name in {
      "getenv", "group", "gtime", "hclose", "hcount", "hdel", "hopen", "iasc", "idesc", "if", "ij", "ijf", "in",
      "inter", "inv", "key", "keys", "last", "like", "lj", "ljf", "load", "log", "lower", "lsq", "ltime",
      "ltrim", "mavg", "max", "maxs", "mcount", "md5", "mdev", "med", "meta", "min", "mins", "mmax", "mmin",
      "mmu", "mod", "msum"
    }
  }

  predicate IsLateWord(name: string) {
    name in {
      "neg", "next", "not", "null", "or", "pj", "prd", "prds", "prev", "rand", "rank", "ratios", "raze",
      "read0", "read1", "reciprocal", "reverse", "rload", "rotate", "rsave", "rtrim", "save", "scov", "sdev",
      "setenv", "show", "signum", "sin", "sqrt", "ss", "ssr", "string", "sublist", "sum", "sums", "svar",
      "tables", "tan", "til", "trim", "type", "uj", "ujf", "ungroup", "union", "upper", "use", "var", "view",
      "views", "vs", "wavg", "while", "within", "wj", "wj1", "wsum", "ww", "xasc", "xbar", "xcol", "xcols",
      "xdesc", "xexp", "xgroup", "xkey", "xlog", "xprev", "xrank"
    }
  }

  /** A name q reserves: never a context's global. */
  predicate IsBuiltin(name: string) {
    || name in QSQL_START || name in QSQL_NEXT || name in ITERATORS || name in READERS || name in WRITERS
    || name == "system" || name == "hsym" || name == "sv"
    || IsPlainWord(name)
  }
}
