/** A directory being filled: names, identifiers and children (pkg/iso9660/directoryinode.go). */
module DirectoryInodes {
  import opened Prelude
  import opened Identifier
  import Susp

  // ----- allowed names -----

  predicate IsLetter(b: Byte) { 0x41 <= b <= 0x5A || 0x61 <= b <= 0x7A }

  /** `PosixPortableNameValidator`: letters, digits, underscore, hyphen and dot. */
  predicate PosixPortable(name: Bytes) {
    forall b | b in name :: IsLetter(b) || 0x30 <= b <= 0x39 || b == 0x5F || b == 0x2D || b == 0x2E
  }

  /** What `NvidiaExtendedNameValidator` refuses beside control characters. */
  const REFUSED: Bytes := [
    0x2F, 0x5C, 0x3F, 0x25, 0x2A, 0x3A, 0x7C, 0x22, 0x3C, 0x3E, 0x20, 0x0A, 0x09, 0x24, 0x21]

  predicate NvidiaExtended(name: Bytes) { forall b | b in name :: b !in REFUSED && b >= 0x20 && b != 0x7F }

  /** A Rock Ridge name is checked no more strictly than a name that is added: whatever a directory takes can be
    written. A portable name is also an extended one. */
  lemma ValidatorsAgree(name: Bytes)
    ensures PosixPortable(name) ==> NvidiaExtended(name)
    ensures NvidiaExtended(name) ==> Susp.ValidName(name)
  {
    assert REFUSED[0] == 0x2F && REFUSED[0] in REFUSED;
  }

  // ----- directories -----

  datatype Child = Child(name: Bytes, inode: nat, isDir: bool)

  class DirectoryInode {
    const idAlloc: IdentifierAllocator
    const isValid: Bytes -> bool
    /** From name to identifier. */
    var names: map<Bytes, Bytes>
    /** From identifier to child. */
    var children: map<Bytes, Child>

    /** The two maps are inverse to each other, and every identifier was given out by the allocator. */
    ghost predicate Valid()
      reads this, idAlloc
    {
      idAlloc.Valid() && (Fits() ==> Consistent(names, children, idAlloc.total))
    }

    /** The counter of identifiers has not wrapped around. */
    ghost predicate Fits()
      reads this, idAlloc
    {
      idAlloc.total <= UINT64
    }

    /** What the directory holds, by name. */
    ghost function Contents(): map<Bytes, (nat, bool)>
      requires Valid() && Fits()
      reads this, idAlloc
    {
      ContentsOf(names, children, idAlloc.total)
    }

    constructor (isValid: Bytes -> bool)
      ensures Valid() && fresh(idAlloc) && idAlloc.total == 0 && Contents() == map[] && this.isValid == isValid
    {
      idAlloc := new IdentifierAllocator();
      this.isValid := isValid;
      names, children := map[], map[];
    }

    /** Adds a child under a name that is allowed and not yet taken; its identifier is new. */
    method AddChild(name: Bytes, inode: nat, isDir: bool) returns (ok: bool)
      requires Valid()
      modifies this, idAlloc
      ensures Valid()
      ensures ok <==> ProperName(name) && isValid(name) && name !in old(names)
      ensures ok ==> idAlloc.total == old(idAlloc.total) + 1
      ensures ok && Fits() ==> Contents() == old(Contents())[name := (inode, isDir)]
      ensures ok && Fits() ==> var ident := IdentifierOf(old(idAlloc.total), isDir);
        ident !in old(children) && children == old(children)[ident := Child(name, inode, isDir)]
      ensures !ok ==> unchanged(this) && unchanged(idAlloc)
    {
      if |name| < 1 || !isValid(name) || name == DOT || name == DOTDOT {
        return false;
      }
      if name in names {
        return false;
      }
      if idAlloc.total < UINT64 {
        Unused(names, children, idAlloc.total, isDir);
        AddKeeps(names, children, idAlloc.total, name, Child(name, inode, isDir));
      }
      var ident := idAlloc.Next();
      if !isDir {
        ident := ident + VERSION;
      } else {
        assert ident + [] == ident;
      }
      names := names[name := ident];
      children := children[ident := Child(name, inode, isDir)];
      return true;
    }

    method GetChild(name: Bytes) returns (r: Option<nat>)
      requires Valid()
      ensures Fits() ==> r == if name in Contents() then Some(Contents()[name].0) else None
    {
      if name in names {
        assert Fits() ==> NameOk(names, children, name);
        var ident := names[name];
        if ident in children {
          return Some(children[ident].inode);
        }
      }
      r := None;
    }
  }

  predicate ProperName(name: Bytes) { name != [] && name != DOT && name != DOTDOT }

  ghost predicate NameOk(names: map<Bytes, Bytes>, children: map<Bytes, Child>, n: Bytes)
    requires n in names
  {
    names[n] in children && children[names[n]].name == n && ProperName(n)
  }

  ghost predicate ChildOk(names: map<Bytes, Bytes>, children: map<Bytes, Child>, count: nat, id: Bytes)
    requires id in children
  {
    children[id].name in names && names[children[id].name] == id && GivenOut(id, children[id].isDir, count)
  }

  ghost predicate Consistent(names: map<Bytes, Bytes>, children: map<Bytes, Child>, count: nat) {
    (forall n {:trigger NameOk(names, children, n)} | n in names :: NameOk(names, children, n))
    && forall id {:trigger ChildOk(names, children, count, id)} | id in children :: ChildOk(names, children, count, id)
  }

  ghost function Entry(names: map<Bytes, Bytes>, children: map<Bytes, Child>, n: Bytes): (nat, bool)
    requires n in names && NameOk(names, children, n)
  {
    (children[names[n]].inode, children[names[n]].isDir)
  }

  ghost function ContentsOf(names: map<Bytes, Bytes>, children: map<Bytes, Child>, count: nat): map<Bytes, (nat, bool)>
    requires Consistent(names, children, count)
  {
    map n | n in names :: assert NameOk(names, children, n); Entry(names, children, n)
  }

  /** As many children as names. */
  lemma {:induction false} SameNumber(names: map<Bytes, Bytes>, children: map<Bytes, Child>, count: nat)
    requires Consistent(names, children, count)
    ensures |names| == |children|
    decreases |names|
  {
    if names == map[] {
      assert forall id | id in children :: ChildOk(names, children, count, id);
    } else {
      var n :| n in names;
      assert NameOk(names, children, n);
      var names', children' := names - {n}, children - {names[n]};
      forall m | m in names' ensures NameOk(names', children', m) { assert NameOk(names, children, m); }
      forall id | id in children' ensures ChildOk(names', children', count, id) {
        assert ChildOk(names, children, count, id);
      }
      SameNumber(names', children', count);
    }
  }

  lemma Unused(names: map<Bytes, Bytes>, children: map<Bytes, Child>, count: nat, isDir: bool)
    requires Consistent(names, children, count)
    ensures IdentifierOf(count, isDir) !in children
  {
    var ident := IdentifierOf(count, isDir);
    forall id | id in children ensures id != ident {
      assert ChildOk(names, children, count, id);
      Unlike(id, children[id].isDir, count, isDir);
    }
  }

  /** A new name under a new identifier keeps the maps consistent and adds just that name. */
  lemma AddKeeps(names: map<Bytes, Bytes>, children: map<Bytes, Child>, count: nat, name: Bytes, child: Child)
    requires Consistent(names, children, count) && name !in names && child.name == name && ProperName(name)
    ensures var ident := IdentifierOf(count, child.isDir);
      Consistent(names[name := ident], children[ident := child], count + 1) == true
      && ContentsOf(names[name := ident], children[ident := child], count + 1)
        == ContentsOf(names, children, count)[name := (child.inode, child.isDir)]
  {
    var ident := IdentifierOf(count, child.isDir);
    Unused(names, children, count, child.isDir);
    var names', children' := names[name := ident], children[ident := child];
    forall n | n in names' ensures NameOk(names', children', n) {
      if n != name { assert NameOk(names, children, n); }
    }
    forall id | id in children' ensures ChildOk(names', children', count + 1, id) {
      if id != ident {
        assert ChildOk(names, children, count, id);
        var k: nat :| k < count && id == IdentifierOf(k, children[id].isDir);
      }
    }
    forall n | n in names ensures NameOk(names, children, n) && names[n] != ident {
      assert NameOk(names, children, n);
    }
  }

  /** One of the identifiers for the first `count` children. */
  ghost predicate GivenOut(id: Bytes, isDir: bool, count: nat) {
    exists k: nat :: k < count && id == IdentifierOf(k, isDir)
  }

  lemma Unlike(id: Bytes, a: bool, count: nat, b: bool)
    requires GivenOut(id, a, count)
    ensures id != IdentifierOf(count, b)
  {
    var k: nat :| k < count && id == IdentifierOf(k, a);
    IdentifiersDiffer(k, count, a, b);
  }
}
