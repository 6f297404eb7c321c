/** A vocabulary word; the rotation logic only ever looks at its id. */
module Words {

  datatype WordEntry = WordEntry(id: string)

  /** The ids of `words`, in order. */
  function Ids(words: seq<WordEntry>): (ids: seq<string>)
    ensures |ids| == |words|
    ensures forall i :: 0 <= i < |words| ==> ids[i] == words[i].id
  {
    seq(|words|, i requires 0 <= i < |words| => words[i].id)
  }

  /** No two words share an id. */
  ghost predicate UniqueIds(words: seq<WordEntry>) {
    forall i, j :: 0 <= i < j < |words| ==> words[i].id != words[j].id
  }
}
