/**
  The path of the spreadsheet a batch run writes: the date, the organism
  with its dots removed and the initial optical density with its dots
  turned into dashes, so that the only dot left is the extension's.
*/
module ResultFile {
  import opened Text

  const Folder: string := "Data/"
  const Suffix: string := "_ShakeFlask.xlsx"

  /** `f'Data/{date}_{organism.replace(".","")}_ODInit{od.replace(".","-")}_ShakeFlask.xlsx'`;
      `date` is the `%y%m%d` text and `odText` is `str(InitBiomass)`. */
  function ResultFileName(date: string, organism: string, odText: string): (r: string)
    ensures |r| >= |Folder| + |Suffix|
    ensures r[..|Folder|] == Folder
    ensures r[|r| - |Suffix|..] == Suffix
  {
    Folder + date + "_" + RemoveChar(organism, '.') + "_ODInit" + ReplaceChar(odText, '.', '-') + Suffix
  }

  /** When the date holds no dot, the extension's dot is the only dot in
      the file name, whatever the organism and the optical density. */
  lemma OnlyExtensionDot(date: string, organism: string, odText: string)
    requires '.' !in date
    ensures var r := ResultFileName(date, organism, odText);
      forall i :: 0 <= i < |r| && r[i] == '.' ==> i == |r| - 5
  {
    var o := RemoveChar(organism, '.');
    var d := ReplaceChar(odText, '.', '-');
    var head := Folder + date + "_" + o + "_ODInit" + d;
    var r := ResultFileName(date, organism, odText);
    assert r == head + Suffix;
    assert '.' !in d by {
      forall i | 0 <= i < |d| ensures d[i] != '.' { }
    }
    assert '.' !in Folder && '.' !in "_" && '.' !in "_ODInit";
    assert '.' !in head;
    forall i | 0 <= i < |r| && r[i] == '.' ensures i == |r| - 5 {
      assert i >= |head|;
      assert r[i] == Suffix[i - |head|];
    }
  }

  /** Dots in the organism name do not reach the file name: the name of a
      dotted organism and of its dot-free spelling coincide. */
  lemma OrganismDotsDropped(date: string, organism: string, odText: string)
    ensures ResultFileName(date, organism, odText) == ResultFileName(date, RemoveChar(organism, '.'), odText)
  {
    RemoveCharAbsent(RemoveChar(organism, '.'), '.');
  }

  /** Likewise the optical density: writing its dots as dashes beforehand
      changes nothing. */
  lemma OdDotsDashed(date: string, organism: string, odText: string)
    ensures ResultFileName(date, organism, odText) == ResultFileName(date, organism, ReplaceChar(odText, '.', '-'))
  {
    var d := ReplaceChar(odText, '.', '-');
    assert ReplaceChar(d, '.', '-') == d;
  }
}
