/** The key names of `internal/repository/redis.go` and decimal printing. */
module RedisKeys {

  function Digit(d: nat): char
    requires d < 10
  {
    '0' + (d as char)
  }

  function Digits(n: nat): (s: string)
    ensures s != "" && s[0] != '-'
  {
    if n < 10 then [Digit(n)] else Digits(n / 10) + [Digit(n % 10)]
  }

  /** `strconv.Itoa` */
  function Itoa(n: int): string {
    if n < 0 then "-" + Digits(-n) else Digits(n)
  }

  function Undigits(s: string): int {
    if s == "" then 0 else 10 * Undigits(s[..|s| - 1]) + (s[|s| - 1] as int - '0' as int)
  }

  function Atoi(s: string): int {
    if s != "" && s[0] == '-' then -Undigits(s[1..]) else Undigits(s)
  }

  lemma {:induction false} UndigitsOfDigits(n: nat)
    ensures Undigits(Digits(n)) == n
  {
    if n >= 10 {
      UndigitsOfDigits(n / 10);
      assert (Digits(n / 10) + [Digit(n % 10)])[..|Digits(n / 10)|] == Digits(n / 10);
    } else {
      assert [Digit(n)][..0] == "";
    }
  }

  lemma AtoiOfItoa(n: int)
    ensures Atoi(Itoa(n)) == n
  {
    if n < 0 {
      UndigitsOfDigits(-n);
      assert ("-" + Digits(-n))[1..] == Digits(-n);
    } else {
      UndigitsOfDigits(n);
    }
  }

  function TaskKey(id: int): string {
    "task:" + Itoa(id)
  }

  function TaskKeyFromStr(idStr: string): string {
    "task:" + idStr
  }

  function TeamTasksKey(teamId: int): string {
    "team_tasks:" + Itoa(teamId)
  }

  lemma ItoaInjective(a: int, b: int)
    ensures Itoa(a) == Itoa(b) <==> a == b
  {
    AtoiOfItoa(a);
    AtoiOfItoa(b);
  }

  /** Different tasks have different keys, different teams have different keys, and no task's key is
      a team's key; after the prefix there is the id in decimals. */
  lemma KeysApart(a: int, b: int)
    ensures TaskKey(a) == TaskKey(b) <==> a == b
    ensures TeamTasksKey(a) == TeamTasksKey(b) <==> a == b
    ensures TaskKey(a) != TeamTasksKey(b)
    ensures TaskKeyFromStr(Itoa(a)) == TaskKey(a)
    ensures "task:" <= TaskKey(a) && Atoi(TaskKey(a)[5..]) == a
    ensures "team_tasks:" <= TeamTasksKey(a) && Atoi(TeamTasksKey(a)[11..]) == a
  {
    hide Itoa;
    AtoiOfItoa(a);
    ItoaInjective(a, b);
    assert TaskKey(a)[5..] == Itoa(a) && TaskKey(b)[5..] == Itoa(b);
    assert TeamTasksKey(a)[11..] == Itoa(a) && TeamTasksKey(b)[11..] == Itoa(b);
    assert TaskKey(a)[1] == 'a' && TeamTasksKey(b)[1] == 'e';
  }
}
