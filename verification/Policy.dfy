/** File sharing rules: the pure queries, the three changes, and the store that applies them to a file. */
module Policy {
  import opened Bytes

  datatype Rule = Rule(owner: string, readers: seq<string>, writers: seq<string>, isPublic: bool)

  type Rules = map<string, Rule>

  datatype Permission = Read | Write | Other(text: string)

  datatype Op =
    | Claim(user: string, file: string)
    | Share(actor: string, file: string, target: string, permission: Permission)
    | SetPublic(actor: string, file: string, value: bool)

  datatype Answer = Created | AlreadyClaimed | Granted | Changed | NotFound | NotOwner | BadPermission

  function OwnerOf(rules: Rules, file: string): (r: Option<string>) {
    if file in rules then Some(rules[file].owner) else None
  }

  predicate CanRead(rules: Rules, user: string, file: string) {
    file in rules &&
    (rules[file].isPublic || user == rules[file].owner || user in rules[file].readers)
  }

  /** A file without a rule is free for anyone to claim. */
  predicate CanWrite(rules: Rules, user: string, file: string) {
    file in rules ==> user == rules[file].owner || user in rules[file].writers
  }

  function VisibleTo(rules: Rules, user: string): (r: set<string>)
    ensures forall f :: f in r <==> f in rules && (CanRead(rules, user, f) || CanWrite(rules, user, f))
  {
    set f | f in rules &&
            (rules[f].isPublic || user == rules[f].owner || user in rules[f].readers || user in rules[f].writers)
  }

  function Granting(bucket: seq<string>, user: string): (r: seq<string>) {
    if user in bucket then bucket else bucket + [user]
  }

  /** What one change does to the rules, and what its caller is told. */
  function Apply(rules: Rules, op: Op): (r: (Rules, Answer)) {
    if op.Claim? then
      if op.file in rules then (rules, AlreadyClaimed)
      else (rules[op.file := Rule(op.user, [], [], false)], Created)
    else if op.file !in rules then (rules, NotFound)
    else
      var rule := rules[op.file];
      if rule.owner != op.actor then (rules, NotOwner)
      else match op
        case Share(_, file, target, Read) =>
          (rules[file := rule.(readers := Granting(rule.readers, target))], Granted)
        case Share(_, file, target, Write) =>
          (rules[file := rule.(writers := Granting(rule.writers, target))], Granted)
        case Share(_, _, _, Other(_)) => (rules, BadPermission)
        case SetPublic(_, file, value) => (rules[file := rule.(isPublic := value)], Changed)
  }

  /** What is published on the event bus about a change. */
  datatype Notice =
    | OwnerSet(file: string, user: string)
    | SharedWith(file: string, user: string, target: string, permission: Permission)
    | VisibilitySet(file: string, user: string)

  /** A change is announced exactly if it was accepted, a share even if it granted nothing new. */
  function Noticed(op: Op, answer: Answer): (r: seq<Notice>)
    ensures r == [] <==> answer !in [Created, Granted, Changed]
  {
    if answer !in [Created, Granted, Changed] then []
    else
      match op
      case Claim(user, file) => [OwnerSet(file, user)]
      case Share(actor, file, target, permission) => [SharedWith(file, actor, target, permission)]
      case SetPublic(actor, file, _) => [VisibilitySet(file, actor)]
  }

  /** The rules file. `None` stands for a file that is missing or cannot be parsed. */
  class RulesFile {
    var content: Option<Rules>

    constructor ()
      ensures content == None
    {
      content := None;
    }
  }

  function Loaded(content: Option<Rules>): (r: Rules) {
    match content
    case Some(rules) => rules
    case None => map[]
  }

  /** One process's copy of the rules over the file all processes share. */
  class PolicyStore {
    const file: RulesFile
    var rules: Rules
    var published: seq<Notice>

    constructor (file: RulesFile)
      ensures this.file == file && rules == map[] && published == []
    {
      this.file, rules, published := file, map[], [];
    }

    method Reload()
      modifies this`rules
      ensures rules == Loaded(file.content)
    {
      match file.content {
        case Some(stored) => rules := stored;
        case None => rules := map[];
      }
    }

    method Save()
      modifies file
      ensures file.content == Some(rules)
    {
      file.content := Some(rules);
    }

    method ClaimFile(user: string, name: string) returns (answer: Answer)
      modifies this, file
      ensures (rules, answer) == Apply(Loaded(old(file.content)), Claim(user, name))
      ensures file.content == Some(rules)
      ensures published == old(published) + Noticed(Claim(user, name), answer)
    {
      Reload();
      if name in rules {
        answer := AlreadyClaimed;
      } else {
        rules := rules[name := Rule(user, [], [], false)];
        answer := Created;
      }
      Save();
      if answer.Created? {
        published := published + [OwnerSet(name, user)];
      }
    }

    method ShareFile(owner: string, name: string, target: string, permission: Permission) returns (answer: Answer)
      modifies this, file
      ensures (rules, answer) == Apply(Loaded(old(file.content)), Share(owner, name, target, permission))
      ensures file.content == Some(rules)
      ensures published == old(published) + Noticed(Share(owner, name, target, permission), answer)
    {
      Reload();
      if name !in rules {
        answer := NotFound;
      } else if rules[name].owner != owner {
        answer := NotOwner;
      } else if permission.Other? {
        answer := BadPermission;
      } else {
        var rule := rules[name];
        var bucket := if permission.Read? then rule.readers else rule.writers;
        if target !in bucket {
          bucket := bucket + [target];
        }
        rule := if permission.Read? then rule.(readers := bucket) else rule.(writers := bucket);
        rules := rules[name := rule];
        answer := Granted;
      }
      Save();
      if answer.Granted? {
        published := published + [SharedWith(name, owner, target, permission)];
      }
    }

    method SetPublicFile(owner: string, name: string, value: bool) returns (answer: Answer)
      modifies this, file
      ensures (rules, answer) == Apply(Loaded(old(file.content)), SetPublic(owner, name, value))
      ensures file.content == Some(rules)
      ensures published == old(published) + Noticed(SetPublic(owner, name, value), answer)
    {
      Reload();
      if name !in rules {
        answer := NotFound;
      } else if rules[name].owner != owner {
        answer := NotOwner;
      } else {
        rules := rules[name := rules[name].(isPublic := value)];
        answer := Changed;
      }
      Save();
      if answer.Changed? {
        published := published + [VisibilitySet(name, owner)];
      }
    }
  }

  /** The rules after a log of changes on an empty store. */
  function Fold(log: seq<Op>): (r: Rules) {
    if log == [] then map[] else Apply(Fold(log[..|log| - 1]), log[|log| - 1]).0
  }

  lemma {:induction false} FoldSnoc(log: seq<Op>, op: Op)
    ensures Fold(log + [op]) == Apply(Fold(log), op).0
  {
    assert (log + [op])[..|log|] == log;
  }

  /** What the file holds after a log of changes, each of which loads it, applies itself and saves. */
  function Stored(log: seq<Op>): (r: Option<Rules>) {
    if log == [] then None else Some(Apply(Loaded(Stored(log[..|log| - 1])), log[|log| - 1]).0)
  }

  /** The file carries the log from one change to the next, and from one process to another. */
  lemma {:induction false} StoreFollowsLog(log: seq<Op>)
    ensures Loaded(Stored(log)) == Fold(log)
  {
    if log != [] {
      StoreFollowsLog(log[..|log| - 1]);
    }
  }

  lemma {:induction false} LoadedIsStored(rules: Rules)
    ensures Loaded(Some(rules)) == rules && Loaded(None) == map[]
  {
  }

  /** Whatever is refused changes nothing. */
  lemma {:induction false} RefusalChangesNothing(rules: Rules, op: Op)
    ensures Apply(rules, op).1 !in [Created, Granted, Changed] ==> Apply(rules, op).0 == rules
  {
  }
}
