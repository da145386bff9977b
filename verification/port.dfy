/** The proxy's listening port (server.py:19-35): the first command-line
    argument read with Python's `int()`, falling back to 8000 when it is
    not an integer or lies outside [1, 65535]. */
module PortArg {
  import opened Wrappers
  import opened Text

  const DefaultPort := 8000
  const MaxPort := 65535

  // ---------------------------------------------------------------------
  // Python `int(s)` for base 10
  // ---------------------------------------------------------------------

  /** Digits with single underscores between them (PEP 515), as `int()`
      accepts after the sign: no leading, trailing or doubled underscore. */
  predicate IsUnderscoredDigits(s: string) {
    && |s| >= 1 && IsDigit(s[0]) && IsDigit(s[|s| - 1])
    && (forall i :: 0 <= i < |s| ==> IsDigit(s[i]) || s[i] == '_')
    && (forall i :: 0 <= i < |s| - 1 ==> !(s[i] == '_' && s[i + 1] == '_'))
  }

  /** The digits of `s` with the underscores dropped. */
  function DropUnderscores(s: string): (r: string)
    requires forall i :: 0 <= i < |s| ==> IsDigit(s[i]) || s[i] == '_'
    ensures AllDigits(r) && |r| <= |s|
    ensures AllDigits(s) ==> r == s
    decreases |s|
  {
    if |s| == 0 then []
    else
      var rest := DropUnderscores(s[1..]);
      if s[0] == '_' then rest else [s[0]] + rest
  }

  /** `int(s)`: `None` where Python raises `ValueError`. Surrounding
      whitespace and one sign are accepted, and leading zeros are allowed
      in base 10. */
  function PyInt(s: string): (r: Option<int>)
    ensures r.Some? ==> |PyStrip(s)| > 0
    ensures AllDigits(s) && |s| > 0 ==> r == Some(DigitsValue(s))
  {
    SignedDigits(PyStrip(s))
  }

  /** `int()` on text already stripped of whitespace: an optional sign and
      then underscored digits. */
  function SignedDigits(t: string): (r: Option<int>)
    ensures r.Some? ==> |t| > 0
  {
    if |t| == 0 then None
    else
      var negative := t[0] == '-';
      var body := if t[0] == '+' || t[0] == '-' then t[1..] else t;
      if !IsUnderscoredDigits(body) then None
      else
        var n: int := DigitsValue(DropUnderscores(body));
        Some(if negative then -n else n)
  }

  /** The port the server listens on, given `sys.argv`. */
  function PortFromArgs(argv: seq<string>): (port: int)
    ensures 1 <= port <= MaxPort
    ensures port != DefaultPort ==> |argv| > 1 && PyInt(argv[1]) == Some(port)
    ensures |argv| > 1 && PyInt(argv[1]).Some? && 1 <= PyInt(argv[1]).value <= MaxPort ==>
      port == PyInt(argv[1]).value
    ensures |argv| <= 1 || PyInt(argv[1]).None? ==> port == DefaultPort
  {
    if |argv| <= 1 then DefaultPort
    else match PyInt(argv[1])
      case None => DefaultPort
      case Some(n) => if n < 1 || n > MaxPort then DefaultPort else n
  }

  /** A port written in decimal is the port the server uses. */
  lemma DecimalPortRoundTrip(prog: string, n: nat)
    requires 1 <= n <= MaxPort
    ensures PortFromArgs([prog, Decimal(n)]) == n
  {
    DecimalRoundTrip(n);
  }

  /** Surrounding whitespace is ignored: padding an argument with
      whitespace on either side selects the same port. */
  lemma PaddingIgnored(prog: string, pre: string, arg: string, post: string)
    requires forall i :: 0 <= i < |pre| ==> IsPySpace(pre[i])
    requires forall i :: 0 <= i < |post| ==> IsPySpace(post[i])
    requires |arg| > 0 && !IsPySpace(arg[0]) && !IsPySpace(arg[|arg| - 1])
    ensures PyInt(pre + arg + post) == PyInt(arg)
    ensures PortFromArgs([prog, pre + arg + post]) == PortFromArgs([prog, arg])
  {
    StripPadded(pre, arg, post);
  }

  lemma StripPadded(pre: string, arg: string, post: string)
    requires forall i :: 0 <= i < |pre| ==> IsPySpace(pre[i])
    requires forall i :: 0 <= i < |post| ==> IsPySpace(post[i])
    requires |arg| > 0 && !IsPySpace(arg[0]) && !IsPySpace(arg[|arg| - 1])
    ensures PyInt(pre + arg + post) == PyInt(arg)
  {
    TrimPadded(pre, arg, post, IsPySpace);
    TrimPadded([], arg, [], IsPySpace);
    assert [] + arg + [] == arg;
  }

  /** A plus sign and single underscores between digits are accepted:
      `+8_080` selects port 8080. */
  lemma PythonSpellingsAccepted(prog: string, arg: string)
    requires arg == "+8_080"
    ensures PortFromArgs([prog, arg]) == 8080
  {
    assert !IsPySpace(arg[0]) && !IsPySpace(arg[|arg| - 1]);
    TrimPadded([], arg, [], IsPySpace);
    assert [] + arg + [] == arg;
    assert PyStrip(arg) == arg;
    PlusUnderscoredValue();
    assert PyInt(arg) == Some(8080);
  }

  lemma PlusUnderscoredValue()
    ensures SignedDigits("+8_080") == Some(8080)
  {
    var t := "+8_080";
    assert t[1..] == "8_080";
    assert IsUnderscoredDigits("8_080");
    assert DropUnderscores("8_080") == "8080" by {
      assert "8_080"[1..] == "_080" && "_080"[1..] == "080";
      assert DropUnderscores("080") == "080";
    }
    assert DigitsValue("8080") == 8080 by {
      assert "8080"[..3] == "808" && "808"[..2] == "80" && "80"[..1] == "8";
    }
  }

  /** A word is not a port: `http` falls back to 8000. */
  lemma WordFallsBack(prog: string)
    ensures PortFromArgs([prog, "http"]) == DefaultPort
  {
    var w := "http";
    assert forall i :: 0 <= i < |w| ==> !IsPySpace(w[i]);
    assert PyStrip(w) == w;
    assert !IsDigit(w[0]);
  }

  /** A doubled underscore is a syntax error for `int()`: `80__80` falls
      back to 8000. */
  lemma DoubledUnderscoreFallsBack(prog: string)
    ensures PortFromArgs([prog, "80__80"]) == DefaultPort
  {
    var u := "80__80";
    assert forall i :: 0 <= i < |u| ==> !IsPySpace(u[i]);
    assert PyStrip(u) == u;
    assert u[2] == '_' && u[3] == '_';
  }

  /** Port 0 and ports above 65535 fall back to 8000. */
  lemma OutOfRangeFallsBack(prog: string)
    ensures PortFromArgs([prog, "0"]) == DefaultPort
    ensures PortFromArgs([prog, "70000"]) == DefaultPort
  {
    assert PyInt("0") == Some(0);
    assert DigitsValue("70000") == 70000 by {
      assert "70000"[..4] == "7000" && "7000"[..3] == "700" && "700"[..2] == "70" && "70"[..1] == "7";
    }
  }
}
