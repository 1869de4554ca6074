/** How the daemon edits /etc/exports, and what it does when nfsd does not like the result. */
module Exports {
  import opened Text

  /** Home directory and network of the user the daemon runs for. */
  datatype Caller = Caller(home: string, base: string, mask: string)

  /** `home -network base -mask mask -alldirs option` */
  function Entry(c: Caller, option: string): string {
    Join([c.home, "-network", c.base, "-mask", c.mask, "-alldirs", option], ' ')
  }

  function Signature(c: Caller): string { Entry(c, "-maproot=root:wheel") }

  /** The form in which earlier versions shared homes. */
  function OldSignature(c: Caller): string { Entry(c, "-mapall=") }

  /** All homes on the default network, as the first versions shared them. */
  function EveryHome(): Caller { Caller("/Users", "192.168.64.0", "255.255.255.0") }

  // ---- The edit, on any signature and legacy prefixes ----

  /** What decides the edit: the signature, and the prefixes of the lines it replaces. */
  datatype Marks = Marks(signature: string, oldA: string, oldB: string)

  function MarksOf(c: Caller): Marks {
    Marks(Signature(c), OldSignature(EveryHome()), OldSignature(c))
  }

  predicate Legacy(m: Marks, line: string) { HasPrefix(line, m.oldA) || HasPrefix(line, m.oldB) }

  ghost predicate Shared(m: Marks, lines: seq<string>) {
    exists i :: 0 <= i < |lines| && HasPrefix(lines[i], m.signature)
  }

  ghost predicate LegacyFree(m: Marks, lines: seq<string>) {
    forall i :: 0 <= i < |lines| ==> !Legacy(m, lines[i])
  }

  /** Each legacy line made empty, every other line kept in its place. */
  function Blanked(m: Marks, lines: seq<string>): (blanked: seq<string>)
    ensures |blanked| == |lines|
    ensures forall i :: 0 <= i < |lines| ==> blanked[i] == if Legacy(m, lines[i]) then "" else lines[i]
  {
    seq(|lines|, i requires 0 <= i < |lines| => if Legacy(m, lines[i]) then "" else lines[i])
  }

  /** Every line followed by a newline. */
  function Terminated(lines: seq<string>): string {
    if lines == [] then "" else Terminated(lines[..|lines| - 1]) + (lines[|lines| - 1] + ['\n'])
  }

  ghost function Edited(m: Marks, buf: string): string {
    Terminated(Blanked(m, Split(buf, '\n'))) + (m.signature + ['\n'])
  }

  /** The file after a run that nfsd accepts. */
  ghost function After(m: Marks, buf: string): string {
    if Shared(m, Split(buf, '\n')) then buf else Edited(m, buf)
  }

  lemma OneMoreShared(m: Marks, lines: seq<string>, line: string)
    ensures Shared(m, lines + [line]) <==> Shared(m, lines) || HasPrefix(line, m.signature)
  {
    var all := lines + [line];
    assert all[|lines|] == line && forall i :: 0 <= i < |lines| ==> all[i] == lines[i];
    if i :| 0 <= i < |lines| && HasPrefix(lines[i], m.signature) { assert HasPrefix(all[i], m.signature); }
  }

  lemma OneMoreLine(m: Marks, lines: seq<string>, line: string)
    ensures Terminated(Blanked(m, lines + [line])) ==
            Terminated(Blanked(m, lines)) + ((if Legacy(m, line) then "" else line) + ['\n'])
  {
    assert Blanked(m, lines + [line])[..|lines|] == Blanked(m, lines);
  }

  method ExportSet(m: Marks, buf: string) returns (ok: bool, bufN: string)
    ensures ok <==> Shared(m, Split(buf, '\n'))
    ensures bufN == Terminated(Blanked(m, Split(buf, '\n')))
  {
    var lines := Split(buf, '\n');
    ok, bufN := false, "";
    for n := 0 to |lines|
      invariant ok <==> Shared(m, lines[..n])
      invariant bufN == Terminated(Blanked(m, lines[..n]))
    {
      var line := lines[n];
      assert lines[..n + 1] == lines[..n] + [line];
      OneMoreShared(m, lines[..n], line);
      OneMoreLine(m, lines[..n], line);
      if HasPrefix(line, m.signature) {
        ok := true;
      }
      if !HasPrefix(line, m.oldA) && !HasPrefix(line, m.oldB) {
        bufN := bufN + (line + ['\n']);
      } else {
        bufN := bufN + ("" + ['\n']);
      }
    }
    assert lines[..|lines|] == lines;
  }

  datatype Outcome = Refused | Updated | Unchanged | Started

  class ExportsFile {
    var contents: Option<string>

    constructor (contents: Option<string>)
      ensures this.contents == contents
    {
      this.contents := contents;
    }

    /** `valid` is nfsd's opinion of the file as written; `running` whether nfsd is up. */
    method Setup(m: Marks, valid: bool, running: bool) returns (outcome: Outcome)
      modifies this
      ensures var before := if old(contents) == None then "" else old(contents).value;
        && (outcome.Refused? <==> !valid)
        && contents == Some(if valid then After(m, before) else before)
        && (outcome == Unchanged ==> contents == Some(before))
        && (valid ==> (outcome == Started <==> !running))
        && (valid ==> (outcome == Unchanged <==> running && Shared(m, Split(before, '\n'))))
    {
      if contents == None {
        contents := Some("");
      }
      var buf := contents.value;
      var shared, bufN := ExportSet(m, buf);
      if !shared {
        contents := Some(bufN + (m.signature + ['\n']));
      }
      if !valid {
        contents := Some(buf);
        return Refused;
      }
      if running {
        outcome := if !shared then Updated else Unchanged;
      } else {
        outcome := Started;
      }
    }
  }

  // ---- What the edit does to the lines ----

  lemma {:induction false} SplitOfTerminated(lines: seq<string>, tail: string)
    requires AllFree(lines, '\n')
    ensures Split(Terminated(lines) + tail, '\n') == lines + Split(tail, '\n')
  {
    if lines == [] {
      assert Terminated(lines) + tail == tail;
    } else {
      var n := |lines| - 1;
      var front, last := lines[..n], lines[n];
      SplitOfTerminated(front, last + ['\n'] + tail);
      assert Terminated(lines) + tail == Terminated(front) + (last + ['\n'] + tail);
      SplitOfConcat(last, '\n', tail);
      SplitWithout(last, '\n');
      assert lines == front + [last];
    }
  }

  /** The lines of the edited file are the old ones with exactly the legacy ones emptied, then the
      signature's, then the empty line every terminated file ends in. */
  lemma EditedLines(m: Marks, buf: string)
    ensures Split(Edited(m, buf), '\n') == Blanked(m, Split(buf, '\n')) + Split(m.signature, '\n') + [""]
  {
    var lines := Split(buf, '\n');
    SplitIsFree(buf, '\n');
    SplitOfTerminated(Blanked(m, lines), m.signature + ['\n']);
    SplitOfConcat(m.signature, '\n', "");
    assert m.signature + ['\n'] + "" == m.signature + ['\n'];
  }

  predicate Proper(m: Marks) { m.signature != "" && m.oldA != "" && m.oldB != "" }

  /** A run leaves no legacy line exactly when it had none to leave or did not stop at the signature
      being there already, and the signature brings none in. */
  lemma NoLegacyLineSurvivesIff(m: Marks, buf: string)
    requires Proper(m)
    ensures var lines := Split(buf, '\n');
      LegacyFree(m, Split(After(m, buf), '\n')) <==>
        if Shared(m, lines) then LegacyFree(m, lines) else LegacyFree(m, Split(m.signature, '\n'))
  {
    var lines, sig := Split(buf, '\n'), Split(m.signature, '\n');
    if !Shared(m, lines) {
      EditedLines(m, buf);
      var blanked := Blanked(m, lines);
      var all := blanked + sig + [""];
      assert forall i :: 0 <= i < |sig| ==> sig[i] == all[|lines| + i];
      forall i | 0 <= i < |lines| ensures !Legacy(m, all[i]) {
        assert all[i] == blanked[i];
      }
    }
  }

  /** Running again changes nothing exactly when the signature is a single line. */
  lemma SecondRunChangesNothingIff(m: Marks, buf: string)
    requires Proper(m)
    ensures After(m, After(m, buf)) == After(m, buf) <==> '\n' !in m.signature
  {
    var once := After(m, buf);
    var lines := Split(once, '\n');
    if '\n' in m.signature {
      SharedIsOneLine(m, buf);
      SharedIsOneLine(m, once);
      EditedLines(m, once);
      assert |Split(Edited(m, once), '\n')| > |lines|;
    } else if !Shared(m, Split(buf, '\n')) {
      EditedLines(m, buf);
      SplitWithout(m.signature, '\n');
      assert lines[|Split(buf, '\n')|] == m.signature;
    }
  }

  lemma SharedIsOneLine(m: Marks, buf: string)
    requires '\n' in m.signature
    ensures !Shared(m, Split(buf, '\n'))
  {
    SplitIsFree(buf, '\n');
    var lines := Split(buf, '\n');
    var k :| 0 <= k < |m.signature| && m.signature[k] == '\n';
    forall i | 0 <= i < |lines| ensures !HasPrefix(lines[i], m.signature) {
      if k < |lines[i]| { assert lines[i][k] in lines[i]; }
    }
  }

  // ---- The daemon's own signature ----

  /** One list of words is a prefix of an equally long one only if they agree up to the last word. */
  lemma {:induction false} PrefixOfWords(a: seq<string>, b: seq<string>)
    requires |a| == |b| > 0 && AllFree(a, ' ') && AllFree(b, ' ') && Join(a, ' ') <= Join(b, ' ')
    ensures a[|a| - 1] <= b[|b| - 1]
  {
    if |a| > 1 {
      var s, t := Join(a[1..], ' '), Join(b[1..], ' ');
      FirstWord(a[0], s, b[0], t);
      PrefixOfWords(a[1..], b[1..]);
    }
  }

  lemma FirstWord(a: string, s: string, b: string, t: string)
    requires ' ' !in a && ' ' !in b && a + [' '] + s <= b + [' '] + t
    ensures a == b && s <= t
  {
    var x, y := a + [' '] + s, b + [' '] + t;
    assert x[|a|] == ' ' == y[|a|] && y[|b|] == ' ';
    assert forall i :: 0 <= i < |b| ==> y[i] == b[i] != ' ';
    assert forall i :: 0 <= i < |a| ==> x[i] == a[i] != ' ';
    assert forall i :: 0 <= i < |x| ==> x[i] == y[i];
    assert a == x[..|a|] == y[..|b|] == b;
    assert s == x[|a| + 1..] && t == y[|b| + 1..];
  }

  predicate Plain(c: Caller) {
    ' ' !in c.home && ' ' !in c.base && ' ' !in c.mask && '\n' !in c.home && '\n' !in c.base && '\n' !in c.mask
  }

  lemma EntriesDiffer(x: Caller, y: Caller)
    requires Plain(x) && Plain(y)
    ensures !HasPrefix(Signature(y), OldSignature(x))
  {
    var mapall, maproot := "-mapall=", "-maproot=root:wheel";
    assert mapall[4] == 'a' && maproot[4] == 'r';
    if HasPrefix(Signature(y), Entry(x, mapall)) {
      PrefixOfWords([x.home, "-network", x.base, "-mask", x.mask, "-alldirs", mapall],
                    [y.home, "-network", y.base, "-mask", y.mask, "-alldirs", maproot]);
    }
  }

  /** Word by word, the line that shares a home, and the lines it replaces: the one of earlier versions for
      the same home and network, and the one for all homes on the default network. */
  lemma LinesWordByWord(c: Caller)
    requires Plain(c)
    ensures var m := MarksOf(c);
      && Split(m.signature, ' ') == [c.home, "-network", c.base, "-mask", c.mask, "-alldirs", "-maproot=root:wheel"]
      && Split(m.oldB, ' ') == [c.home, "-network", c.base, "-mask", c.mask, "-alldirs", "-mapall="]
      && Split(m.oldA, ' ') ==
         ["/Users", "-network", "192.168.64.0", "-mask", "255.255.255.0", "-alldirs", "-mapall="]
  {
    EntryWords(c, "-maproot=root:wheel");
    EntryWords(c, "-mapall=");
    EntryWords(EveryHome(), "-mapall=");
  }

  lemma EntryWords(c: Caller, option: string)
    requires ' ' !in c.home && ' ' !in c.base && ' ' !in c.mask && ' ' !in option
    ensures Split(Entry(c, option), ' ') == [c.home, "-network", c.base, "-mask", c.mask, "-alldirs", option]
  {
    SplitOfFreeJoin([c.home, "-network", c.base, "-mask", c.mask, "-alldirs", option], ' ');
  }

  lemma EntryIsOneLine(c: Caller, option: string)
    requires Plain(c) && option != "" && '\n' !in option
    ensures Entry(c, option) != "" && '\n' !in Entry(c, option)
  {
    var words := [c.home, "-network", c.base, "-mask", c.mask, "-alldirs", option];
    JoinIsFree(words, ' ', '\n');
    assert Join(words, ' ') == words[0] + [' '] + Join(words[1..], ' ');
  }

  lemma MarksAreProper(c: Caller)
    requires Plain(c)
    ensures Proper(MarksOf(c)) && '\n' !in Signature(c)
  {
    EntryIsOneLine(c, "-maproot=root:wheel");
    EntryIsOneLine(c, "-mapall=");
    EntryIsOneLine(EveryHome(), "-mapall=");
  }

  lemma OneLineIsLegacyFree(m: Marks)
    requires '\n' !in m.signature && !Legacy(m, m.signature)
    ensures LegacyFree(m, Split(m.signature, '\n'))
  {
    SplitWithout(m.signature, '\n');
  }

  /** For homes and networks without spaces or newlines the signature is one line and never looks
      like the lines it replaces, whatever the user and network. */
  lemma SignatureIsNotLegacy(c: Caller)
    requires Plain(c)
    ensures LegacyFree(MarksOf(c), Split(Signature(c), '\n'))
  {
    EntriesDiffer(EveryHome(), c);
    EntriesDiffer(c, c);
    MarksAreProper(c);
    OneLineIsLegacyFree(MarksOf(c));
  }

  /** So for such users a run leaves no legacy line unless it finds the home shared already, and the
      next run changes nothing. */
  lemma OwnRunCleansAndSettles(c: Caller, buf: string)
    requires Plain(c)
    ensures var m := MarksOf(c);
      && (LegacyFree(m, Split(After(m, buf), '\n')) <==>
            Shared(m, Split(buf, '\n')) ==> LegacyFree(m, Split(buf, '\n')))
      && After(m, After(m, buf)) == After(m, buf)
  {
    var m := MarksOf(c);
    MarksAreProper(c);
    SignatureIsNotLegacy(c);
    NoLegacyLineSurvivesIff(m, buf);
    SecondRunChangesNothingIff(m, buf);
  }
}
