/** CParserMode: the stack of modes, and what the name of a tag does to it. */
module ParserMode {

  /** What a mode allows inside of it, and the tag that ends it; names are hashed. */
  datatype Mode = Mode(stackable: bool, closer: nat)

  /** The mode in force; without any it is the normal one. */
  function Current(stack: seq<nat>, normal: nat): nat {
    if stack == [] then normal else stack[|stack| - 1]
  }

  /** What a name does: it ends the mode in force, or begins one where that is allowed, or there is no such mode. */
  function Assigned(stack: seq<nat>, name: nat, modes: map<nat, Mode>, normal: nat): seq<nat>
    requires Current(stack, normal) in modes
  {
    var mode := modes[Current(stack, normal)];
    if mode.closer == name then (if stack == [] then [] else stack[..|stack| - 1])
    else if mode.stackable && name in modes then stack + [name]
    else stack
  }

  /** It fails only where nothing may be begun. */
  predicate Refused(stack: seq<nat>, name: nat, modes: map<nat, Mode>, normal: nat)
    requires Current(stack, normal) in modes
  {
    var mode := modes[Current(stack, normal)];
    mode.closer != name && !mode.stackable
  }

  /** Beginning a mode and ending it restores what was. */
  lemma BeginAndEnd(stack: seq<nat>, name: nat, modes: map<nat, Mode>, normal: nat)
    requires Current(stack, normal) in modes && name in modes
    requires modes[Current(stack, normal)].stackable && modes[Current(stack, normal)].closer != name
    ensures var begun := Assigned(stack, name, modes, normal);
            && Current(begun, normal) == name
            && Assigned(begun, modes[name].closer, modes, normal) == stack
            && !Refused(begun, modes[name].closer, modes, normal)
  {
  }

  class CParserMode {
    const modes: map<nat, Mode>
    const normal: nat
    var stack: seq<nat>

    /** Only known modes are ever begun. */
    ghost predicate Valid() reads this { normal in modes && forall mode <- stack :: mode in modes }

    constructor (modes: map<nat, Mode>, normal: nat)
      requires normal in modes
      ensures Valid() && this.modes == modes && this.normal == normal && stack == []
    {
      this.modes, this.normal := modes, normal;
      stack := [];
    }

    method Assign(name: nat) returns (ok: bool)
      requires Valid()
      modifies this`stack
      ensures Valid() && ok == !Refused(old(stack), name, modes, normal)
      ensures stack == Assigned(old(stack), name, modes, normal)
    {
      var current := modes[if stack == [] then normal else stack[|stack| - 1]];
      ok := true;
      if current.closer == name {
        if stack != [] {
          stack := stack[..|stack| - 1];
        }
      } else if current.stackable {
        if name in modes {
          stack := stack + [name];
        }
      } else {
        ok := false;
      }
    }
  }
}
