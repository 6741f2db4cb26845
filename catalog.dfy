/** The question catalog: ten fixed questions in presentation order, and lookup by id. */
module Catalog {
  import opened JsCore

  datatype Category = ReactV19 | TailwindCssV4
  datatype Level = Junior | Intermediate | Advanced

  /** A catalog entry; `timeLimit` is in seconds. */
  datatype Question = Question(
    id: int,
    category: Category,
    level: Level,
    question: string,
    expectedAnswer: string,
    timeLimit: int)

  const Q1Text := "What does the useOptimistic hook enable, and how does it improve user experience?"
  const Q1Answer := "It allows rendering an optimistic UI state while awaiting async mutations. This enhances responsiveness by reflecting intended changes immediately before the server responds."
  const Q2Text := "Explain how useActionState differs from useState in managing form submissions."
  const Q2Answer := "useActionState integrates async logic and pending/error states into a single hook for form mutations, simplifying error handling and submission feedback."
  const Q3Text := "React 19 introduces a new way to use ref in function components. What is it and how does it replace forwardRef?"
  const Q3Answer := "Function components can now directly receive a ref prop without forwardRef, simplifying component definitions and improving type inference."
  const Q4Text := "How does the <form action={serverAction}> pattern in React 19 simplify mutation logic compared to traditional event handling?"
  const Q4Answer := "It eliminates manual event handling and fetch calls by allowing direct server function binding to form actions, ensuring server-side validation and mutation in one network round-trip."
  const Q5Text := "React 19 introduces the use function. What are two key use cases where use() enhances rendering flow?"
  const Q5Answer := "(1) Suspending rendering until promises resolve (e.g., use(promise) inside Suspense), (2) accessing context values conditionally during render without using useContext."
  const Q6Text := "What is the benefit of Tailwind v4's CSS-first configuration approach?"
  const Q6Answer := "It allows configuring theme tokens and utilities directly in the CSS file using @theme, reducing reliance on tailwind.config.js and simplifying setup."
  const Q7Text := "How do container queries in Tailwind CSS v4 improve responsive design?"
  const Q7Answer := "They enable styling based on a component's container size using @container and @min-*, @max-* variants, which allows more modular, responsive components."
  const Q8Text := "What does automatic content detection do in Tailwind CSS v4?"
  const Q8Answer := "It removes the need to manually configure the content array in tailwind.config.js, by auto-detecting template files and excluding common ignored files."
  const Q9Text := "How does Tailwind CSS v4 use modern CSS features like @property and cascade layers?"
  const Q9Answer := "These features improve performance and control\U{2014}@property enables animating custom properties, and cascade layers improve CSS predictability and overrides."
  const Q10Text := "What are dynamic utility values in Tailwind v4 and how do they enhance flexibility?"
  const Q10Answer := "They allow arbitrary utility values using a consistent spacing/token system, e.g., w-17 for dynamic widths without needing manual config extensions."

  /** The catalog, in the order the questions are presented. */
  const Questions: seq<Question> := [
    Question(1, ReactV19, Intermediate, Q1Text, Q1Answer, 240),
    Question(2, ReactV19, Advanced, Q2Text, Q2Answer, 240),
    Question(3, ReactV19, Advanced, Q3Text, Q3Answer, 240),
    Question(4, ReactV19, Advanced, Q4Text, Q4Answer, 240),
    Question(5, ReactV19, Advanced, Q5Text, Q5Answer, 240),
    Question(6, TailwindCssV4, Junior, Q6Text, Q6Answer, 180),
    Question(7, TailwindCssV4, Intermediate, Q7Text, Q7Answer, 180),
    Question(8, TailwindCssV4, Junior, Q8Text, Q8Answer, 180),
    Question(9, TailwindCssV4, Intermediate, Q9Text, Q9Answer, 180),
    Question(10, TailwindCssV4, Junior, Q10Text, Q10Answer, 180)
  ]

  /** `getTotalQuestions()`. */
  function TotalQuestions(): (n: nat)
    ensures n == 10
  {
    |Questions|
  }

  /** The entry at index i has id i + 1: ids are unique, dense and follow catalog order. */
  lemma IdsDense()
    ensures |Questions| == 10
    ensures forall i :: 0 <= i < |Questions| ==> Questions[i].id == i + 1
  {
    forall i | 0 <= i < |Questions| ensures Questions[i].id == i + 1 {
      if i < 5 { IdsDenseHead(i); } else { IdsDenseTail(i); }
    }
  }

  lemma IdsDenseHead(i: int)
    requires 0 <= i < 5
    ensures Questions[i].id == i + 1
  {
    if i == 0 {} else if i == 1 {} else if i == 2 {} else if i == 3 {} else {}
  }

  lemma IdsDenseTail(i: int)
    requires 5 <= i < 10
    ensures Questions[i].id == i + 1
  {
    if i == 5 {} else if i == 6 {} else if i == 7 {} else if i == 8 {} else {}
  }

  /** Questions 1 to 5 are React v19 questions of 240 seconds, questions 6 to 10
      Tailwind CSS v4 questions of 180 seconds; so every time limit is positive. */
  lemma CategoriesAndLimits(i: int)
    requires 0 <= i < |Questions|
    ensures i < 5 ==> Questions[i].category == ReactV19 && Questions[i].timeLimit == 240
    ensures i >= 5 ==> Questions[i].category == TailwindCssV4 && Questions[i].timeLimit == 180
    ensures Questions[i].timeLimit > 0
  {
    if i == 0 {} else if i == 1 {} else if i == 2 {} else if i == 3 {} else if i == 4 {}
    else if i == 5 {} else if i == 6 {} else if i == 7 {} else if i == 8 {} else {}
  }

  /** `getQuestionById(id)`: the entry with that id, for 1 to 10, and nothing otherwise. */
  function GetQuestionById(id: int): (r: Option<Question>)
    ensures 1 <= id <= |Questions| ==> r == Some(Questions[id - 1])
    ensures (id < 1 || id > |Questions|) ==> r == None
  {
    IdsDense();
    var p := (q: Question) => q.id == id;
    if 1 <= id <= |Questions| then FindFirst(Questions, p, id - 1); Find(Questions, p)
    else Find(Questions, p)
  }
}
