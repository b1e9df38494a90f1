/**
 * The expectations of the Iterator demo's tests, stated about the model:
 * the walks of a small tree, built by inserting 2, 1 and 3.
 */
module TreeExamples {
  import opened Trees
  import opened TreeIterators

  /** The tree with root 2 and children 1 and 3. */
  const TwoOneThree: Tree := Node(Node(Leaf, 1, Leaf), 2, Node(Leaf, 3, Leaf))

  /** Inserting 2, 1, 3 into an empty tree builds it. */
  lemma TwoOneThreeTree()
    ensures InsertAll(Leaf, [2, 1, 3]) == TwoOneThree
  {
    var t1 := AddChild(Leaf, 2);
    var t2 := AddChild(t1, 1);
    var t3 := AddChild(t2, 3);
    assert [2, 1, 3][1..] == [1, 3];
    assert [1, 3][1..] == [3];
    assert [3][1..] == [];
    assert InsertAll(t3, []) == t3;
    assert InsertAll(t2, [3]) == t3;
    assert InsertAll(t1, [1, 3]) == t3;
  }

  /** Its walks: in-order 1,2,3, pre-order 2,1,3 and post-order 1,3,2. */
  lemma TwoOneThreeWalks()
    ensures Walk(InOrderTraversal, TwoOneThree) == [1, 2, 3]
    ensures Walk(PreOrderTraversal, TwoOneThree) == [2, 1, 3]
    ensures Walk(PostOrderTraversal, TwoOneThree) == [1, 3, 2]
  {
    var one, three := Node(Leaf, 1, Leaf), Node(Leaf, 3, Leaf);
    assert InOrder(one) == [1] && PreOrder(one) == [1] && PostOrder(one) == [1];
    assert InOrder(three) == [3] && PreOrder(three) == [3] && PostOrder(three) == [3];
  }
}
