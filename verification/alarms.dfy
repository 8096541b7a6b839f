/** The persisted alarm record: an identifier, a name and two nested groups. */
module Alarms {

  /**
   * The `text1` field: a real boolean once a yes/no spelling was recognised,
   * otherwise the cell's own text, unchanged.
   */
  datatype Text1 = Flag(b: bool) | Raw(s: string)

  datatype TextGroup = TextGroup(text: string, text1: Text1, text2: string)

  datatype ConfigGroup = ConfigGroup(config: string, subconfig1: string, subconfig2: string)

  datatype Alarm = Alarm(alarmId: int, name: string, text: TextGroup, config: ConfigGroup)

  /** The identifiers a collection of alarms occupies. */
  function IdSet(s: seq<Alarm>): set<int> {
    set i | 0 <= i < |s| :: s[i].alarmId
  }

  /** No two alarms of the collection share an identifier. */
  ghost predicate DistinctIds(s: seq<Alarm>) {
    forall i, j | 0 <= i < j < |s| :: s[i].alarmId != s[j].alarmId
  }

  /** `b` is `a` with at most its identifier replaced. */
  ghost predicate SameButId(a: Alarm, b: Alarm) {
    b == a.(alarmId := b.alarmId)
  }

  lemma IdSetAppend(s: seq<Alarm>, t: seq<Alarm>)
    ensures IdSet(s + t) == IdSet(s) + IdSet(t)
  {
    var u := s + t;
    forall k | k in IdSet(u) ensures k in IdSet(s) + IdSet(t) {
      var i :| 0 <= i < |u| && u[i].alarmId == k;
      if i >= |s| { assert t[i - |s|] == u[i]; }
    }
    forall k | k in IdSet(s) ensures k in IdSet(u) {
      var i :| 0 <= i < |s| && s[i].alarmId == k;
      assert u[i] == s[i];
    }
    forall k | k in IdSet(t) ensures k in IdSet(u) {
      var i :| 0 <= i < |t| && t[i].alarmId == k;
      assert u[|s| + i] == t[i];
    }
  }
}
