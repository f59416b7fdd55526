/** The Soroban `hello` contract
    (sozlesme/proje/contracts/hello-world/src/lib.rs): a greeting built as a
    vector of two strings. */
module HelloContract {

  /** A Soroban vector of strings, grown by `push_back`. */
  class StringVec {
    var items: seq<string>

    /** `Vec::new(&env)` */
    constructor ()
      ensures items == []
    {
      items := [];
    }

    /** `v.push_back(x)` */
    method PushBack(x: string)
      modifies this
      ensures items == old(items) + [x]
    {
      items := items + [x];
    }
  }

  /** `hello(env, name)`: `["Hello", to]`, the name passed through unchanged. */
  method Hello(to: string) returns (v: StringVec)
    ensures fresh(v)
    ensures v.items == Greeting(to)
  {
    v := new StringVec();
    v.PushBack("Hello");
    v.PushBack(to);
  }

  /** The greeting as a value: exactly two elements, `"Hello"` first and the
      name second. */
  function Greeting(to: string): (v: seq<string>)
    ensures |v| == 2 && v[0] == "Hello" && v[1] == to
  {
    ["Hello", to]
  }
}
