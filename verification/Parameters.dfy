/** What a bare token says: a parameter by name, in braces or not, a special parameter, or itself. */
module Parameters {
  import opened ShellAst
  import opened FlatLines

  /** A POSIX name (POSIX.1-2017, Base Definitions, section 3.235). */
  predicate IsName(s: string) {
    && s != "" && !('0' <= s[0] <= '9')
    && forall i :: 0 <= i < |s| ==>
      'a' <= s[i] <= 'z' || 'A' <= s[i] <= 'Z' || '0' <= s[i] <= '9' || s[i] == '_'
  }

  const SPECIALS: set<char> :=
    {'0', '1', '2', '3', '4', '5', '6', '7', '8', '9', '@', '*', '#', '?', '$', '!', '-'}

  lemma NamesAgree(s: string)
    ensures IsPosixIdentifier(s) <==> IsName(s)
  {
  }

  lemma SpecialsAgree(s: string)
    ensures IsShellSpecial(s) <==> |s| == 1 && s[0] in SPECIALS
  {
  }

  /** A name behind a dollar sign, with or without braces, is that variable. */
  lemma NamedParameter(name: string)
    requires IsName(name)
    ensures LowerToken("$" + name) == ShellVar(name) && LowerToken("${" + name + "}") == ShellVar(name)
  {
    hide IsPosixIdentifier, IsName;
    NamesAgree(name);
    NamesStart(name);
    var braced := "${" + name + "}";
    assert ("$" + name)[1..] == name;
    assert braced[1..] == "{" + name + "}";
    assert braced[1..][1..|braced| - 2] == name;
  }

  lemma NamesStart(name: string)
    requires IsName(name)
    ensures name != "" && name[0] != '{' && (|name| == 1 ==> name[0] !in SPECIALS) && !IsShellSpecial(name)
    ensures !IsShellSpecial("{" + name + "}")
  {
  }

  lemma SpecialParameter(p: char)
    requires p in SPECIALS
    ensures LowerToken("$" + [p]) == ShellSpecial([p])
  {
    assert ("$" + [p])[1..] == [p];
  }

  /** The only tokens that are not themselves. */
  predicate IsParameter(tok: string) {
    && tok != "" && tok[0] == '$'
    && var rest := tok[1..];
       IsName(rest) || (|rest| == 1 && rest[0] in SPECIALS)
       || (|rest| > 1 && rest[0] == '{' && rest[|rest| - 1] == '}' && IsName(rest[1..|rest| - 1]))
  }

  /** Every other token is itself. */
  lemma LiteralExactly(tok: string)
    ensures LowerToken(tok) == LitStr(tok) <==> !IsParameter(tok)
    ensures LowerToken(tok).LitStr? ==> LowerToken(tok).text == tok
  {
    hide IsPosixIdentifier, IsName, IsShellSpecial, SPECIALS;
    if tok != "" && tok[0] == '$' {
      var rest := tok[1..];
      NamesAgree(rest);
      SpecialsAgree(rest);
      if |rest| > 1 {
        NamesAgree(rest[1..|rest| - 1]);
      }
      BraceIsNoName(rest);
    }
  }

  lemma BraceIsNoName(rest: string)
    ensures rest != "" && rest[0] == '{' ==> !IsName(rest) && !(|rest| == 1 && rest[0] in SPECIALS)
  {
  }
}
